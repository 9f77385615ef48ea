/**
 * The coaching session (src/App.tsx): a welcome screen, an optional questionnaire
 * whose answers are recorded by question field, then a chat whose every turn is
 * sent, with a system prompt built from the answers, to a chat endpoint.
 */
module AppComponent {

  import opened Wrappers
  import opened JsString

  datatype Step = Initial | Test | Chat

  /** `system` occurs only at the head of a request; the transcript holds the other two. */
  datatype Role = System | User | Assistant

  datatype Message = Message(role: Role, content: string)

  /** A questionnaire entry; `options` is empty for a free-text question. */
  datatype Question = Question(question: string, field: string, options: map<string, string>)

  /** The questionnaire, `baseTest`. */
  const BaseTest: seq<Question> := [
    Question("On a scale of 1-10, how satisfied are you with your life right now?",
             "lifeSatisfaction", map[]),
    Question("Which area of your life needs the most attention?\na) Health\nb) Relationships\nc) Career/Money\nd) Confidence/Mindset\ne) Focus/Discipline",
             "priorityArea",
             map["a" := "health", "b" := "relationships", "c" := "career",
                 "d" := "confidence", "e" := "focus"])
  ]

  const ChatGreeting := "Let's chat! What's on your mind?"
  const CompletionText := "Great! I now have a better understanding of your needs. Let's start our conversation!"
  const ConnectionTrouble := "I'm having trouble connecting. Please try again."

  /** How the request to the chat endpoint ends: a reply whose JSON carries `content`,
      a response whose status is not ok, or an exception (network, parsing). */
  datatype FetchOutcome = Received(content: string) | NotOk | Failed

  /** The questionnaire has two questions with the fields `lifeSatisfaction` and
      `priorityArea`; only the second offers options, keyed `a` to `e`. */
  lemma BaseTestTable()
    ensures |BaseTest| == 2
    ensures BaseTest[0].field == "lifeSatisfaction" && BaseTest[0].options == map[]
    ensures BaseTest[1].field == "priorityArea" && BaseTest[1].options.Keys == {"a", "b", "c", "d", "e"}
  {
  }

  /** The greeting, the completion text and the trouble text differ from each other and
      from every question, so an assistant turn shows which of them was said. */
  lemma FixedTextsDistinct()
    ensures ChatGreeting != CompletionText && ChatGreeting != ConnectionTrouble
    ensures CompletionText != ConnectionTrouble
    ensures forall i | 0 <= i < |BaseTest| ::
              BaseTest[i].question !in {ChatGreeting, CompletionText, ConnectionTrouble}
  {
  }

  /** The assistant turn shown once the request has ended: the server's `content` on
      success, the trouble text on a non-ok status or an exception. */
  function ReplyText(outcome: FetchOutcome): (r: string)
    ensures outcome.Received? ==> r == outcome.content
    ensures !outcome.Received? ==> r == ConnectionTrouble
  {
    match outcome
    case Received(content) => content
    case NotOk => ConnectionTrouble
    case Failed => ConnectionTrouble
  }

  /** The fields of the first `n` questions. */
  ghost function FieldsOf(n: nat): set<string>
    requires n <= |BaseTest|
  {
    set i | 0 <= i < n :: BaseTest[i].field
  }

  /** The transcript starts with the assistant and then alternates user, assistant, ... */
  ghost predicate Alternates(messages: seq<Message>) {
    forall i | 0 <= i < |messages| :: messages[i].role == if i % 2 == 0 then Assistant else User
  }

  /** The body of the chat request: the system prompt, the transcript so far, the new user turn. */
  function RequestPayload(systemPrompt: string, history: seq<Message>, answer: string): (p: seq<Message>)
    ensures |p| == |history| + 2
    ensures p[0] == Message(System, systemPrompt)
    ensures p[1..] == history + [Message(User, answer)]
    ensures (forall i | 0 <= i < |history| :: history[i].role != System) ==>
              forall i | 0 <= i < |p| :: p[i].role == System <==> i == 0
  {
    [Message(System, systemPrompt)] + history + [Message(User, answer)]
  }

  /** Every question has its own field, so recording one answer never overwrites another. */
  lemma FieldsDistinct()
    ensures forall i, j | 0 <= i < j < |BaseTest| :: BaseTest[i].field != BaseTest[j].field
  {
  }

  /** One more question answered adds exactly its field. */
  lemma FieldsOfNext(n: nat)
    requires n < |BaseTest|
    ensures FieldsOf(n + 1) == FieldsOf(n) + {BaseTest[n].field}
  {
  }

  /** A turn, a user message then an assistant message, keeps the transcript alternating. */
  lemma {:induction false} AlternatesAfterTurn(messages: seq<Message>, user: string, assistant: string)
    requires Alternates(messages) && |messages| % 2 == 1
    ensures Alternates(messages + [Message(User, user), Message(Assistant, assistant)])
  {
    var ms := messages + [Message(User, user), Message(Assistant, assistant)];
    forall i | 0 <= i < |ms| ensures ms[i].role == if i % 2 == 0 then Assistant else User {
      if i < |messages| {
        assert ms[i] == messages[i];
      }
    }
  }

  /** The request of a chat turn is the transcript the user sees once the turn is shown,
      without the reply, headed by the system prompt. */
  lemma PayloadIsTranscript(systemPrompt: string, history: seq<Message>, answer: string, reply: Message)
    ensures var shown := history + [Message(User, answer), reply];
            RequestPayload(systemPrompt, history, answer) == [Message(System, systemPrompt)] + shown[..|shown| - 1]
  {
    var shown := history + [Message(User, answer), reply];
    assert shown[..|shown| - 1] == history + [Message(User, answer)];
  }

  /** How many questions have been answered: the current index while the questionnaire
      runs, all of them once it has been completed, none otherwise. */
  ghost function Answered(step: Step, currentQuestion: int, answers: map<string, string>): nat
  {
    if step == Test && 0 <= currentQuestion then currentQuestion
    else if step == Chat && answers != map[] then |BaseTest|
    else 0
  }

  /** What holds of the session between any two handlers. */
  ghost predicate SessionInvariant(messages: seq<Message>, step: Step, currentQuestion: int,
                                   answers: map<string, string>)
  {
    var answered := Answered(step, currentQuestion, answers);
    && 0 <= currentQuestion < |BaseTest|
    && Alternates(messages)
    && (step == Initial ==> messages == [] && answers == map[] && currentQuestion == 0)
    && (step != Initial ==> |messages| % 2 == 1)
    // while the questionnaire runs, the last message asks the current question
    && (step == Test ==>
          |messages| == 2 * currentQuestion + 1
          && messages[2 * currentQuestion] == Message(Assistant, BaseTest[currentQuestion].question))
    && (step == Chat && answers != map[] ==>
          currentQuestion == |BaseTest| - 1 && |messages| > 2 * |BaseTest|)
    // answers are keyed by the fields of the questions answered so far, and each
    // holds what the user wrote in reply to that question
    && answers.Keys == FieldsOf(answered)
    && (forall i | 0 <= i < answered ::
          && messages[2 * i] == Message(Assistant, BaseTest[i].question)
          && answers[BaseTest[i].field] == messages[2 * i + 1].content)
  }

  /** Recording the answer to the current question, which is not the last, and asking
      the next one keeps the invariant. */
  lemma NextQuestionKeepsInvariant(messages: seq<Message>, q: int, answers: map<string, string>, answer: string)
    requires SessionInvariant(messages, Test, q, answers) && q < |BaseTest| - 1
    ensures SessionInvariant(messages + [Message(User, answer), Message(Assistant, BaseTest[q + 1].question)],
                             Test, q + 1, answers[BaseTest[q].field := answer])
  {
    var ms := messages + [Message(User, answer), Message(Assistant, BaseTest[q + 1].question)];
    var recorded := answers[BaseTest[q].field := answer];
    AlternatesAfterTurn(messages, answer, BaseTest[q + 1].question);
    AnswerRecorded(messages, q, answers, answer, ms, recorded);
  }

  /** Recording the answer to the last question and moving to the chat keeps the invariant. */
  lemma LastQuestionKeepsInvariant(messages: seq<Message>, q: int, answers: map<string, string>, answer: string)
    requires SessionInvariant(messages, Test, q, answers) && q == |BaseTest| - 1
    ensures SessionInvariant(messages + [Message(User, answer), Message(Assistant, CompletionText)],
                             Chat, q, answers[BaseTest[q].field := answer])
  {
    var ms := messages + [Message(User, answer), Message(Assistant, CompletionText)];
    var recorded := answers[BaseTest[q].field := answer];
    AlternatesAfterTurn(messages, answer, CompletionText);
    AnswerRecorded(messages, q, answers, answer, ms, recorded);
    assert BaseTest[q].field in recorded;
  }

  /** The part shared by the two questionnaire steps: the first `q + 1` questions are
      answered, each by the user turn that follows it. */
  lemma AnswerRecorded(messages: seq<Message>, q: int, answers: map<string, string>, answer: string,
                       ms: seq<Message>, recorded: map<string, string>)
    requires SessionInvariant(messages, Test, q, answers)
    requires |ms| == |messages| + 2 && ms[..|messages|] == messages && ms[|messages|] == Message(User, answer)
    requires recorded == answers[BaseTest[q].field := answer]
    ensures recorded.Keys == FieldsOf(q + 1)
    ensures forall i | 0 <= i < q + 1 ::
              && ms[2 * i] == Message(Assistant, BaseTest[i].question)
              && recorded[BaseTest[i].field] == ms[2 * i + 1].content
  {
    FieldsOfNext(q);
    FieldsDistinct();
    forall i | 0 <= i < q + 1
      ensures ms[2 * i] == Message(Assistant, BaseTest[i].question)
      ensures recorded[BaseTest[i].field] == ms[2 * i + 1].content
    {
      assert ms[2 * i] == messages[2 * i];
      if i < q {
        assert ms[2 * i + 1] == messages[2 * i + 1];
      }
    }
  }

  /** A chat turn keeps the invariant; in particular it leaves the answers alone. */
  lemma ChatTurnKeepsInvariant(messages: seq<Message>, q: int, answers: map<string, string>,
                               answer: string, reply: string)
    requires SessionInvariant(messages, Chat, q, answers)
    ensures SessionInvariant(messages + [Message(User, answer), Message(Assistant, reply)], Chat, q, answers)
  {
    var ms := messages + [Message(User, answer), Message(Assistant, reply)];
    AlternatesAfterTurn(messages, answer, reply);
    forall i | 0 <= i < Answered(Chat, q, answers)
      ensures ms[2 * i] == messages[2 * i] && ms[2 * i + 1] == messages[2 * i + 1]
    {
    }
  }

  class App {
    var messages: seq<Message>
    var currentMessage: string
    var isLoading: bool
    var currentStep: Step
    var currentQuestion: int
    /** `answers`, keyed by question field. */
    var answers: map<string, string>
    /** `createSystemPrompt`, of which only its being a function of the answers matters. */
    const createSystemPrompt: map<string, string> -> string

    /** The session invariant; a handler is never interrupted, so nothing is loading
        between handlers. */
    ghost predicate Valid()
      reads this`messages, this`isLoading, this`currentStep, this`currentQuestion, this`answers
    {
      !isLoading && SessionInvariant(messages, currentStep, currentQuestion, answers)
    }

    /** The state the component mounts with. */
    constructor (createSystemPrompt: map<string, string> -> string)
      ensures Valid()
      ensures messages == [] && currentMessage == "" && !isLoading
      ensures currentStep == Initial && currentQuestion == 0 && answers == map[]
      ensures this.createSystemPrompt == createSystemPrompt
    {
      messages := [];
      currentMessage := "";
      isLoading := false;
      currentStep := Initial;
      currentQuestion := 0;
      answers := map[];
      this.createSystemPrompt := createSystemPrompt;
    }

    /** Every key of the answers is the field of some question. */
    lemma AnswerKeysAreFields()
      requires Valid()
      ensures forall k | k in answers :: exists i :: 0 <= i < |BaseTest| && BaseTest[i].field == k
    {
    }

    /** "Take a quick assessment": the questionnaire starts with its first question. */
    method HandleStartTest()
      requires Valid() && currentStep == Initial
      modifies this`currentStep, this`messages
      ensures Valid()
      ensures currentStep == Test
      ensures messages == [Message(Assistant, BaseTest[0].question)]
    {
      currentStep := Test;
      messages := [Message(Assistant, BaseTest[0].question)];
    }

    /** "Start chatting right away": the chat starts with a greeting and no answers. */
    method HandleStartChat()
      requires Valid() && currentStep == Initial
      modifies this`currentStep, this`messages
      ensures Valid()
      ensures currentStep == Chat
      ensures messages == [Message(Assistant, ChatGreeting)]
    {
      currentStep := Chat;
      messages := [Message(Assistant, ChatGreeting)];
    }

    /** The questionnaire branch of `handleAnswer`: the answer is recorded under the
        current question's field, every other answer stays, and the next question (or,
        after the last one, the completion text and the chat) follows the user turn. */
    twostate predicate RecordTransition(answer: string)
      reads this`messages, this`isLoading, this`currentStep, this`currentQuestion, this`answers
    {
      && 0 <= old(currentQuestion) < |BaseTest|
      && !isLoading
      && answers == old(answers)[BaseTest[old(currentQuestion)].field := answer]
      && if old(currentQuestion) < |BaseTest| - 1 then
           && currentStep == Test
           && currentQuestion == old(currentQuestion) + 1
           && messages == old(messages) + [Message(User, answer),
                                           Message(Assistant, BaseTest[old(currentQuestion) + 1].question)]
         else
           && currentStep == Chat
           && currentQuestion == old(currentQuestion)
           && messages == old(messages) + [Message(User, answer), Message(Assistant, CompletionText)]
    }

    /** The chat branch of `handleAnswer`: the request carries the system prompt of the
        answers, the transcript and the user turn; the user turn and the reply are
        appended; the answers and the step stay. */
    twostate predicate ChatTransition(answer: string, outcome: FetchOutcome, new request: Option<seq<Message>>)
      reads this`messages, this`isLoading, this`currentStep, this`currentQuestion, this`answers
    {
      && !isLoading
      && currentStep == old(currentStep)
      && currentQuestion == old(currentQuestion)
      && answers == old(answers)
      && request == Some(RequestPayload(createSystemPrompt(old(answers)), old(messages), answer))
      && messages == old(messages) + [Message(User, answer), Message(Assistant, ReplyText(outcome))]
    }

    /** What `handleAnswer` does to the session; `request` is the body it posts, if any. */
    twostate predicate AnswerTransition(answer: string, outcome: FetchOutcome, new request: Option<seq<Message>>)
      reads this`messages, this`isLoading, this`currentStep, this`currentQuestion, this`answers
    {
      if old(currentStep) == Test then request == None && RecordTransition(answer)
      else ChatTransition(answer, outcome, request)
    }

    /** `handleAnswer`, with the outcome of its request to the chat endpoint given. */
    method HandleAnswer(answer: string, outcome: FetchOutcome) returns (request: Option<seq<Message>>)
      requires Valid() && currentStep != Initial
      modifies this`messages, this`isLoading, this`currentStep, this`currentQuestion, this`answers
      ensures Valid()
      ensures AnswerTransition(answer, outcome, request)
    {
      if currentStep == Test {
        RecordAnswer(answer);
        request := None;
      } else {
        request := ChatTurn(answer, outcome);
      }
    }

    /** The questionnaire branch of `handleAnswer`. */
    method RecordAnswer(answer: string)
      requires Valid() && currentStep == Test
      modifies this`messages, this`currentStep, this`currentQuestion, this`answers
      ensures Valid()
      ensures RecordTransition(answer)
    {
      var newAnswers := answers[BaseTest[currentQuestion].field := answer];
      if currentQuestion < |BaseTest| - 1 {
        NextQuestionKeepsInvariant(messages, currentQuestion, answers, answer);
        answers := newAnswers;
        messages := messages + [Message(User, answer), Message(Assistant, BaseTest[currentQuestion + 1].question)];
        currentQuestion := currentQuestion + 1;
      } else {
        LastQuestionKeepsInvariant(messages, currentQuestion, answers, answer);
        answers := newAnswers;
        currentStep := Chat;
        messages := messages + [Message(User, answer), Message(Assistant, CompletionText)];
      }
    }

    /** The chat branch of `handleAnswer`, the request's outcome given. The request is the
        system prompt followed by the transcript now shown, without the reply. */
    method ChatTurn(answer: string, outcome: FetchOutcome) returns (request: Option<seq<Message>>)
      requires Valid() && currentStep == Chat
      modifies this`messages, this`isLoading
      ensures Valid()
      ensures ChatTransition(answer, outcome, request)
      ensures request == Some([Message(System, createSystemPrompt(answers))] + messages[..|messages| - 1])
    {
      var history := messages;
      messages := messages + [Message(User, answer)];
      isLoading := true;
      request := Some(RequestPayload(createSystemPrompt(answers), history, answer));
      var reply := ReplyText(outcome);
      ChatTurnKeepsInvariant(history, currentQuestion, answers, answer, reply);
      PayloadIsTranscript(createSystemPrompt(answers), history, answer, Message(Assistant, reply));
      messages := messages + [Message(Assistant, reply)];
      isLoading := false;
    }

    /** What `handleSend` does: a draft that is blank after trimming changes nothing;
        otherwise the trimmed draft is answered and the draft is cleared. */
    twostate predicate SendTransition(outcome: FetchOutcome, new request: Option<seq<Message>>)
      reads this
    {
      match Submittable(old(currentMessage))
      case None =>
        && request == None
        && currentMessage == old(currentMessage)
        && messages == old(messages) && isLoading == old(isLoading)
        && currentStep == old(currentStep) && currentQuestion == old(currentQuestion)
        && answers == old(answers)
      case Some(draft) =>
        && currentMessage == ""
        && AnswerTransition(draft, outcome, request)
    }

    /** `handleSend`, run by the Send button. */
    method HandleSend(outcome: FetchOutcome) returns (request: Option<seq<Message>>)
      requires Valid() && currentStep != Initial
      modifies this
      ensures Valid()
      ensures SendTransition(outcome, request)
    {
      match Submittable(currentMessage)
      case Some(draft) =>
        request := HandleAnswer(draft, outcome);
        currentMessage := "";
      case None =>
        request := None;
    }

    /** The input's `onChange`. */
    method SetCurrentMessage(value: string)
      modifies this`currentMessage
      ensures currentMessage == value
    {
      currentMessage := value;
    }

    /** The input's `onKeyPress`: Enter sends (Shift is not looked at); other keys do nothing. */
    method HandleInputKeyPress(key: string, outcome: FetchOutcome) returns (request: Option<seq<Message>>)
      requires Valid() && currentStep != Initial
      modifies this
      ensures Valid()
      ensures key == "Enter" ==> SendTransition(outcome, request)
      ensures key != "Enter" ==> request == None && unchanged(this)
    {
      if key == "Enter" {
        request := HandleSend(outcome);
      } else {
        request := None;
      }
    }
  }

  /** A user who takes the assessment and replies to both questions in turn ends up in
      the chat, with each reply recorded under its question's field and the transcript
      made of the questions, the replies and the completion text. */
  method CompleteAssessment(createSystemPrompt: map<string, string> -> string, first: string, second: string)
    returns (app: App)
    ensures fresh(app)
    ensures app.Valid() && app.currentStep == Chat
    ensures app.answers == map[BaseTest[0].field := first, BaseTest[1].field := second]
    ensures app.messages == [Message(Assistant, BaseTest[0].question), Message(User, first),
                             Message(Assistant, BaseTest[1].question), Message(User, second),
                             Message(Assistant, CompletionText)]
  {
    app := new App(createSystemPrompt);
    app.HandleStartTest();
    var request := app.HandleAnswer(first, Failed);
    assert app.currentStep == Test && app.currentQuestion == 1;
    assert app.answers == map[BaseTest[0].field := first];
    request := app.HandleAnswer(second, Failed);
  }
}

# UnbndAICoach chat session, modelled in Dafny

UnbndAICoach is a Telegram Mini-App front end. It greets the user and offers either a
short assessment or an immediate chat. The assessment asks the questions of `baseTest`
one at a time and records each answer under the question's `field`. The chat sends each
user turn to a chat endpoint, preceded by a system prompt built from those answers and
by the transcript so far, and shows the reply or a fixed "trouble connecting" message.
A separate input component, `ChatInput`, holds a draft. It sends the trimmed draft when
the draft is not blank and the component is enabled, and then clears it.

This project models that session state machine and the input's submit guard, and
proves their contracts:

- `js_string.dfy` (module `JsString`): JavaScript's `String.prototype.trim`, with the
  ECMAScript whitespace and line-terminator code points. It is characterised
  independently of its definition (`TrimUnique`) and proved idempotent. A trimmed string
  is empty exactly when the draft is all whitespace.
- `chat_input.dfy` (module `ChatInputComponent`): class `ChatInput` with the draft
  (`message`), the `disabled` prop and the log of values passed to `onSend`. It has the
  submit and key-press handlers and the send button's `disabled` condition. The button
  is proved enabled exactly when a submit would send.
- `app.dfy` (module `AppComponent`): the `baseTest` table and class `App` with the six
  state fields of `App`. It has the handlers `handleStartTest`, `handleStartChat`,
  `handleAnswer` and `handleSend`, and the input's change and key-press callbacks.
  `App.Valid()` is the session invariant that every handler preserves:
  - the question index stays within `baseTest`;
  - the transcript alternates assistant and user turns, starting with the assistant;
  - during the assessment the last message asks the current question;
  - the answer keys are exactly the fields of the questions answered so far;
  - each answer is what the user wrote in reply to its question.
- `wrappers.dfy` (module `Wrappers`): `Option`.

The chat request is an input to the model: each chat turn takes a `FetchOutcome`
(`Received(content)`, `NotOk` for a non-ok HTTP status, `Failed` for an exception).
`createSystemPrompt` is a function value fixed when the `App` is built. Only the fact
that it depends on the answers alone is modelled.

The handlers that need the chat screen (`handleAnswer`, `handleSend`, the input's
key press) require `currentStep != Initial`, and the two start handlers require
`currentStep == Initial`. These preconditions come from the render conditions at
src/App.tsx:113-120, which show the start buttons only on the welcome screen and the
input only after it.

## Model

| member | source | states |
|---|---|---|
| `JsString.IsWhitespace` | src/App.tsx:105 | the characters `trim()` strips: the ECMAScript WhiteSpace and LineTerminator code points, namely 9-13, 32, 0xA0, 0x1680, 0x2000-0x200A, 0x2028, 0x2029, 0x202F, 0x205F, 0x3000 and 0xFEFF |
| `JsString.TrimStart` | src/App.tsx:105 | what is left after stripping the front does not start with whitespace and is no longer than the input |
| `JsString.TrimEnd` | src/App.tsx:105 | what is left after stripping the back is a prefix of the input that does not end with whitespace |
| `JsString.Trim` | src/components/ChatInput.tsx:71-72 | `trim()` leaves no whitespace at either end and never lengthens the string |
| `JsString.TrimStartCut` | src/App.tsx:105 | stripping the front keeps a suffix of the input, and every character cut off is whitespace |
| `JsString.TrimEndCut` | src/App.tsx:105 | every character stripped from the back is whitespace |
| `JsString.TrimSlice` | src/components/ChatInput.tsx:71-72 | `trim()` returns the piece of the string that starts right after its leading whitespace; only whitespace precedes it and only whitespace follows it |
| `JsString.TrimOfPadded` | src/components/ChatInput.tsx:72 | a piece with whitespace before it and after it, and no whitespace at either of its ends, is what `trim()` returns |
| `JsString.TrimStartAt` | src/App.tsx:105 | stripping the front of a string whose first non-whitespace character is at `lo` leaves exactly the suffix from `lo` |
| `JsString.TrimEndAfter` | src/App.tsx:105 | stripping the back of the suffix from `lo`, when the last non-whitespace character is at `hi - 1`, leaves exactly the piece from `lo` to `hi` |
| `JsString.TrimEndAt` | src/App.tsx:105 | stripping the back of a string whose last non-whitespace character is at `hi - 1` leaves exactly the prefix up to `hi` |
| `JsString.TrimEmptyIff` | src/components/ChatInput.tsx:71 | the trimmed draft is empty (falsy) exactly when every character of the draft is whitespace |
| `JsString.TrimUnique` | src/components/ChatInput.tsx:72 | any split of a string into whitespace, a piece with no whitespace at either end, and whitespace has `Trim` equal to that piece |
| `JsString.TrimIdempotent` | src/App.tsx:105-106 | trimming the trimmed draft that `handleSend` passes on changes nothing |
| `JsString.SubmittedDraftIsFixed` | src/App.tsx:105-106 | the value `handleSend` passes on, offered again as a draft, passes the guard and is passed on unchanged |
| `JsString.Submittable` | src/App.tsx:105-106 | `if (draft.trim())` passes exactly when the draft is not all whitespace, and then yields the non-empty trimmed draft |
| `ChatInputComponent.SubmitValue` | src/components/ChatInput.tsx:69-75 | a submit sends exactly when the component is enabled and the draft is not all whitespace; the value sent is `trim(message)`, non-empty, with no whitespace at either end |
| `ChatInputComponent.SendButtonDisabled` | src/components/ChatInput.tsx:108 | the send button is disabled exactly when the component is disabled or the draft is all whitespace |
| `ChatInputComponent.ButtonEnabledIffSubmitSends` | src/components/ChatInput.tsx:106-108 | the button is enabled exactly when a submit would call `onSend` |
| `ChatInputComponent.IsSubmitKey` | src/components/ChatInput.tsx:78 | a key press submits exactly when the key is Enter and Shift is not held |
| `ChatInputComponent.ChatInput.constructor` | src/components/ChatInput.tsx:59-60 | the draft starts empty and nothing has been sent |
| `ChatInputComponent.ChatInput.SetDisabled` | src/components/ChatInput.tsx:59 | a re-render sets the `disabled` prop |
| `ChatInputComponent.ChatInput.Change` | src/components/ChatInput.tsx:99 | editing replaces the draft |
| `ChatInputComponent.ChatInput.HandleSubmit` | src/components/ChatInput.tsx:69-75 | when the guard passes, `onSend` is called exactly once with the trimmed draft and the draft becomes empty; otherwise nothing is sent and the draft is unchanged |
| `ChatInputComponent.ChatInput.HandleKeyPress` | src/components/ChatInput.tsx:77-82 | Enter without Shift prevents the default and submits; Enter with Shift or any other key sends nothing and leaves the draft unchanged |
| `AppComponent.BaseTestTable` | src/App.tsx:6-23 | the questionnaire has two questions, with fields `lifeSatisfaction` and `priorityArea`; only the second has options, keyed `a` to `e` |
| `AppComponent.FixedTextsDistinct` | src/App.tsx:49-97 | the chat greeting, the completion text and the trouble text differ from each other and from every question |
| `AppComponent.ReplyText` | src/App.tsx:89-97 | the assistant turn after a request is the response's `content` when it succeeds, and the trouble text on a non-ok status or an exception |
| `AppComponent.SessionInvariant` | src/App.tsx:26-101 | what holds between handlers: the question index is within `baseTest`; the transcript alternates assistant and user turns; the welcome screen has no messages or answers; during the assessment the last message asks the current question; the answer keys are exactly the fields of the questions answered, and each answer is the user turn that follows its question |
| `AppComponent.RequestPayload` | src/App.tsx:77-85 | the request is the system prompt, then the prior messages in order, then the user turn, so its length is the transcript's plus two; when the history has no system turn, only the head is a system turn |
| `AppComponent.PayloadIsTranscript` | src/App.tsx:68-94 | the request is the system prompt followed by the transcript the user sees after the turn, without the reply |
| `AppComponent.FieldsDistinct` | src/App.tsx:6-23 | no two questions of `baseTest` share a field |
| `AppComponent.FieldsOfNext` | src/App.tsx:55-58 | recording one more question's answer adds exactly that question's field to the answer keys |
| `AppComponent.AlternatesAfterTurn` | src/App.tsx:62-97 | appending a user turn and then an assistant turn keeps the transcript alternating |
| `AppComponent.NextQuestionKeepsInvariant` | src/App.tsx:55-62 | recording the answer to a question that is not the last under its field and asking the next question keeps the session invariant |
| `AppComponent.LastQuestionKeepsInvariant` | src/App.tsx:55-65 | recording the answer to the last question and moving to `chat` with the completion text keeps the session invariant |
| `AppComponent.AnswerRecorded` | src/App.tsx:55-65 | after an answer is recorded, the answer keys are exactly the fields of the questions answered so far, and each answer is the user turn that follows its question |
| `AppComponent.ChatTurnKeepsInvariant` | src/App.tsx:67-101 | a user turn followed by any assistant reply keeps the session invariant and leaves every recorded answer matched with its user turn |
| `AppComponent.App.constructor` | src/App.tsx:26-31 | the session starts on the welcome screen with no messages, an empty draft, no loading, question 0 and no answers, and satisfies the session invariant |
| `AppComponent.App.Valid` | src/App.tsx:26-101 | no request is in flight between handlers, and the six state fields satisfy the session invariant |
| `AppComponent.App.AnswerKeysAreFields` | src/App.tsx:31-57 | every key of the answers map is the field of some question |
| `AppComponent.App.HandleStartTest` | src/App.tsx:44-47 | the step becomes `test` and the messages are exactly one assistant message holding the first question |
| `AppComponent.App.HandleStartChat` | src/App.tsx:49-52 | the step becomes `chat` and the messages are exactly one assistant greeting |
| `AppComponent.App.HandleAnswer` | src/App.tsx:54-102 | in `test`: the answer is stored under the current question's field and every other answer is unchanged; before the last question the index goes up by one and the user answer and the next question are appended; on the last question the step becomes `chat`, the index stays and the user answer and the completion text are appended. In `chat`: the answers and the step are unchanged, the request is `RequestPayload` of the system prompt of the answers, the prior messages and the answer, and the user answer and the reply are appended, the reply being the server's `content` on success and the trouble text on a non-ok status or an exception; loading ends false. The session invariant is kept |
| `AppComponent.App.RecordAnswer` | src/App.tsx:55-66 | the answer is stored under the current question's field; before the last question the index goes up by one and the answer and the next question are appended; on the last question the step becomes `chat` and the answer and the completion text are appended; the invariant is kept |
| `AppComponent.App.ChatTurn` | src/App.tsx:67-101 | the request is the system prompt of the answers, the prior transcript and the user turn; the user turn and the reply (server content, or the trouble text on a non-ok status or an exception) are appended; answers and step are unchanged and loading ends false; the request equals the system prompt followed by the transcript now shown, without the reply |
| `AppComponent.App.HandleSend` | src/App.tsx:104-109 | a draft that is all whitespace changes nothing; otherwise the trimmed draft is answered as by `HandleAnswer` and the draft becomes empty |
| `AppComponent.App.SetCurrentMessage` | src/App.tsx:134 | editing replaces the draft |
| `AppComponent.App.HandleInputKeyPress` | src/App.tsx:135 | Enter sends as `HandleSend` does, whatever Shift is; any other key changes nothing |
| `AppComponent.CompleteAssessment` | src/App.tsx:44-65 | a user who starts the assessment and answers both questions of `baseTest` ends in `chat` with the answers map holding exactly the two replies under the two fields, and the transcript exactly question, reply, question, reply, completion text |

## Left out

- The HTTP request to the chat endpoint, its JSON encoding and the parsing of the response (src/App.tsx:72-93) are network I/O. Each chat turn takes the request's outcome as a parameter instead. A successful response whose JSON lacks a string `content` is not distinguished from one that has it.
- The text of the system prompt and the `JSON.stringify` of the answers inside it (src/App.tsx:146-193) are fixed prose and a library serialiser. `createSystemPrompt` is an arbitrary function of the answers given to the `App` constructor.
- Asynchrony is not modelled; each chat turn is one atomic step. In the source, `isLoading` is true while a request is in flight, and `handleSend` does not check it, so requests can overlap. The user turn is appended from the render's `messages` and the reply through a functional update (src/App.tsx:62, 68, 94), which can interleave with other updates. In the model, `isLoading` is false whenever no handler is running.
- `console.error` logging of the failure (src/App.tsx:96) is not modelled.
- React rendering, the Telegram `useEffect` initialisation (src/App.tsx:34-42, 111-143) and the focus effect of `ChatInput` (src/components/ChatInput.tsx:63-67) are UI plumbing. The render conditions are used only to justify the handlers' preconditions on `currentStep`.
- `preventDefault` on the form submission (src/components/ChatInput.tsx:70) is DOM behaviour. The model records only the key press's `preventDefault`, because it decides whether Enter inserts a newline.
- The `options` of a question are recorded in `BaseTest` but nothing in the session reads them, and neither does the source.
- JavaScript strings are UTF-16 code units, and Dafny strings here are Unicode scalar values, so lone surrogates are not representable. Every code point `trim` strips lies in the Basic Multilingual Plane, so trimming agrees on every string the model can hold.
- src/theme.ts, src/telegram-init.ts, dist/telegram-init.js, src/main.tsx, src/components/ChatLoading.tsx, src/components/ChatMessage.tsx, tailwind.config.js and vite.config.ts are theming, SDK bootstrap, polling, styling and build configuration, and are not part of this model.

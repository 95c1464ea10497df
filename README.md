# Quiz engine and chat session of Nur-e-Ilm, in Dafny

The application is a single-page Islamic-studies site. It has two pieces of
real state logic, each living inside a React component. This project models
both and proves what they promise.

- **Quiz engine** (`QuizGame.tsx`). Four state cells: `currentIdx`,
  `selectedAnswer` (an option index or nothing), `score` and `isFinished`.
  Three handlers change them. `handleAnswer` has a double-answer guard and
  awards a point for the correct option. `handleNext` moves on, or finishes
  on the last question. `resetQuiz` restores the start. The view colours each
  option of the current question as plain, correct, wrong or faded, and it
  enables the option buttons and the "next" button according to the
  selection. The question bank is a parameter. It must be non-empty, and
  every `correctAnswer` must index an option of its question.
- **Chat session** (`AIChat.tsx`). It holds an append-only list of turns
  (`ChatMessage`), an input buffer and an `isLoading` flag. `handleSend` is
  split at its `await`. `ChatSession.BeginSend` trims the input and checks
  the guard. It then appends the user turn, clears the buffer, sets loading,
  and returns the arguments handed to the gateway: the earlier turns and the
  trimmed text. `ChatSession.CompleteSend(reply)` appends the model's turn
  and clears loading. The gateway's reply is a plain string parameter.
- **`trim`** (`text.dfy`). JavaScript's `String.prototype.trim` is modelled
  over the exact ECMAScript white-space set: TAB, LF, VT, FF, CR, the
  byte-order mark, U+2028, U+2029 and every Unicode space separator (Zs).

Each component has the same two layers:

- A value datatype of its state (`QuizState`, `ChatState`) with one pure
  step function per handler, a trace function `Run` over a sequence of
  events, and lemmas about them.
- A class with the source's fields (`Quiz.QuizGame`, `Chat.ChatSession`).
  Each method updates the fields in place. Its `ensures` gives the new
  fields and ties the new state to the step function.

Files: `wrappers.dfy` (Option), `text.dfy` (module `Text`), `quiz.dfy`
(module `Quiz`), `chat.dfy` (module `Chat`).

Modelling decisions:

- `handleNext` has no "answer selected" guard in the code. Only the
  disabled button stops it. The model follows the code, so `Next` is
  allowed on an unanswered question. All invariants still hold in that
  case, and `NextsFinish` covers it.
- The completion step of `handleSend` sets `messages` to the list it built
  before the `await` plus the reply (AIChat.tsx:30). The model appends the
  reply to the current `messages`. The input box stays usable during the
  `await`, but `Chat.LoadingFreezesTurns` proves that typing and further
  presses of send leave `messages` unchanged while `isLoading` is set. So
  the two lists are the same, and `Chat.Exchange` states the result for
  any such events between the send and the reply.
- In the trace model, a gateway reply with no send outstanding does nothing.
  That event cannot occur in the source, because no continuation is waiting
  for it. `ChatSession.CompleteSend` requires `isLoading` for the same
  reason.
- The gateway forwards the history followed by the new message as a user
  turn (geminiService.ts:12-15). `Chat.GatewayContents` models this, and
  `Chat.SubmitAccepted` proves that the forwarded list is exactly the
  session's new list of turns.

## Model

| member | source | states |
|---|---|---|
| `Text.TrimStart` | AIChat.tsx:20 | the result is the suffix of the input that starts at its first non-space character; everything cut away is white space |
| `Text.TrimEnd` | AIChat.tsx:20 | the result is the prefix of the input that ends at its last non-space character; everything cut away is white space |
| `Text.Trim` | AIChat.tsx:22 | the trimmed text is empty or starts and ends with a non-space character |
| `Text.TrimIsSlice` | AIChat.tsx:22 | `trim` returns a contiguous slice of the input with only white space on either side |
| `Text.TrimEmptyIffBlank` | AIChat.tsx:20 | `!input.trim()` holds exactly when the input is all white space, including the empty input |
| `Text.TrimIdempotent` | AIChat.tsx:22 | trimming twice is the same as trimming once |
| `Text.IsSpace` | AIChat.tsx:20-22 | the ECMAScript WhiteSpace and LineTerminator set that `trim` strips; no contract of its own, the definition is the model, used by `Text.TrimStart` and `Text.TrimEnd` |
| `Quiz.Step` | QuizGame.tsx:15-37 | every handler keeps `currentIdx` within the bank and keeps `0 <= score <= currentIdx + (answered ? 1 : 0)` |
| `Quiz.AnswerStep` | QuizGame.tsx:15-21 | `handleAnswer` as a pure step; no contract of its own, the definition is the model; effect stated by `Quiz.AnswerEffect` and `Quiz.AnswerTwiceIsAnswerOnce` |
| `Quiz.NextStep` | QuizGame.tsx:23-30 | `handleNext` as a pure step; no contract of its own, the definition is the model; effect stated by `Quiz.NextEffect` |
| `Quiz.Run` | QuizGame.tsx:13 | after any sequence of handler calls, `currentQuestion` is still a real question and the score bound still holds |
| `Quiz.InitialInv` | QuizGame.tsx:7-11 | the initial `useState` values satisfy the invariant |
| `Quiz.AnswerEffect` | QuizGame.tsx:15-21 | `handleAnswer` does nothing once an answer is selected; otherwise it selects `idx`, adds exactly one point iff `idx` is the correct option, and leaves `currentIdx` and `isFinished` alone |
| `Quiz.AnswerTwiceIsAnswerOnce` | QuizGame.tsx:16 | a second answer with any value leaves the state as the first answer left it |
| `Quiz.NextEffect` | QuizGame.tsx:23-30 | before the last question `handleNext` advances by one and clears the selection, keeping score and finished flag; on the last question it only sets `isFinished` |
| `Quiz.ScoreBounded` | QuizGame.tsx:49 | in every reachable state the displayed `score / ISLAMIC_QUESTIONS.length` has `0 <= score <= length` |
| `Quiz.ResetAfterAnything` | QuizGame.tsx:32-37 | after any sequence of events, `resetQuiz` yields exactly `(0, null, 0, false)`, and a second reset changes nothing |
| `Quiz.NextsFinish` | QuizGame.tsx:23-30 | from any unfinished state, answered or not, pressing "next" once per remaining question ends finished on the last question with the score unchanged; the selection is cleared unless the quiz started on the last question |
| `Quiz.FreshNextsFinish` | QuizGame.tsx:7-30 | from a fresh quiz, `length` presses of "next" end finished at the last index |
| `Quiz.PlayFrom` | QuizGame.tsx:15-30 | answering each remaining question once and pressing "next" each time adds exactly one point per correct pick and finishes on the last question |
| `Quiz.PlayThrough` | QuizGame.tsx:15-30 | a full play-through ends finished with a score equal to the number of correct picks, so the score is determined by the picks |
| `Quiz.ThreeQuestionScenario` | QuizGame.tsx:15-30 | with correct options 1, 0, 2, answering 1, 1, 2 (with "next" after each) finishes with score 2 |
| `Quiz.StatusOf` | QuizGame.tsx:82-95 | the look of one option: plain, correct, wrong or faded; no contract of its own, the definition is the model; classified by `Quiz.AllNeutralBeforeSelection` and `Quiz.StatusesAfterSelection` |
| `Quiz.Statuses` | QuizGame.tsx:77-95 | the look of every option of a question, in order; no contract of its own, the definition is the model; classified by `Quiz.AllNeutralBeforeSelection` and `Quiz.StatusesAfterSelection` |
| `Quiz.AllNeutralBeforeSelection` | QuizGame.tsx:77-82 | before an answer is selected every option is drawn plain |
| `Quiz.StatusesAfterSelection` | QuizGame.tsx:82-95 | after a selection exactly one option, the correct one, is green; an option is red iff it is the selected one and differs from the correct one (so at most one is red); every other option is faded; none is plain |
| `Quiz.AnswerButtonsDisabled` | QuizGame.tsx:100 | the option buttons are disabled once an answer is selected; no contract of its own, the definition is the model; tied to the guard by `Quiz.ButtonsMatchGuards` |
| `Quiz.NextButtonDisabled` | QuizGame.tsx:122 | the "next" button is disabled while nothing is selected; no contract of its own, the definition is the model; tied to the guard by `Quiz.ButtonsMatchGuards` |
| `Quiz.ButtonsMatchGuards` | QuizGame.tsx:100-122 | option buttons and the "next" button are never enabled together, and the option buttons are enabled exactly when pressing one changes the state |
| `Quiz.QuizGame.constructor` | QuizGame.tsx:7-11 | mounting starts from `(0, null, 0, false)` and satisfies the invariant |
| `Quiz.QuizGame.CurrentQuestion` | QuizGame.tsx:13 | `currentQuestion` is an entry of the bank whose `correctAnswer` indexes one of its options |
| `Quiz.QuizGame.HandleAnswer` | QuizGame.tsx:15-21 | in place: unchanged when an answer is already selected, otherwise selection set and the score raised by one iff correct; index and finished flag untouched; the invariant is kept |
| `Quiz.QuizGame.HandleNext` | QuizGame.tsx:23-30 | in place: advance and clear the selection, or finish on the last question with everything else untouched; the invariant is kept |
| `Quiz.QuizGame.ResetQuiz` | QuizGame.tsx:32-37 | in place: the fields become exactly the initial values |
| `Chat.Step` | AIChat.tsx:19-32 | every event keeps the session invariant (alternating roles starting with the user, trimmed non-blank user turns, odd length exactly while loading) and only appends turns |
| `Chat.Accepts` | AIChat.tsx:20 | the guard of `handleSend`: the trimmed input is non-empty and no reply is pending; no contract of its own, the definition is the model; used by `Chat.SubmitRejected` and `Chat.SubmitAccepted` |
| `Chat.Submit` | AIChat.tsx:19-28 | `handleSend` up to its `await` as a pure step; no contract of its own, the definition is the model; effect stated by `Chat.SubmitRejected`, `Chat.SubmitAccepted` and `Chat.SubmitKeepsInv` |
| `Chat.Receive` | AIChat.tsx:30-31 | the rest of `handleSend` after the `await`; no contract of its own, the definition is the model; effect stated by `Chat.Exchange` and `Chat.ChatSession.CompleteSend` |
| `Chat.Edit` | AIChat.tsx:95 | typing into the input box; no contract of its own, the definition is the model; effect stated by `Chat.ChatSession.SetInput` and `Chat.LoadingFreezesTurns` |
| `Chat.GatewayContents` | geminiService.ts:12-15 | the contents sent to the model: the history followed by the message as a user turn; no contract of its own, the definition is the model; tied to the session's turns by `Chat.SubmitAccepted` |
| `Chat.AppendKeepsInv` | AIChat.tsx:24-30 | appending the turn of the role whose turn it is keeps the list alternating with trimmed user turns |
| `Chat.SubmitKeepsInv` | AIChat.tsx:19-26 | a send, accepted or rejected, keeps the invariant and leaves the old turns as a prefix |
| `Chat.Run` | AIChat.tsx:24-30 | after any sequence of events the invariant holds and the old turn list is a prefix of the new one: nothing is modified, removed or reordered |
| `Chat.InitialInv` | AIChat.tsx:8-10 | the initial session satisfies the invariant and its send button is disabled |
| `Chat.SubmitRejected` | AIChat.tsx:20 | with a blank input or while loading, `handleSend` changes nothing and makes no gateway request |
| `Chat.SubmitAccepted` | AIChat.tsx:22-28 | an accepted send appends exactly one user turn with the trimmed, non-empty input, clears the buffer, sets loading, and requests with the turns before that turn plus the same text, which the gateway forwards as exactly the new list |
| `Chat.SendButtonEnabled` | AIChat.tsx:102 | the send button's enabled state; no contract of its own, the definition is the model; tied to the guard by `Chat.SendButtonMatchesGuard` |
| `Chat.SendButtonMatchesGuard` | AIChat.tsx:102 | the send button is enabled iff the input is not all white space and nothing is loading, which is exactly when pressing it makes a request |
| `Chat.LoadingFreezesTurns` | AIChat.tsx:20 | while a reply is awaited, any typing and further presses of send leave the turns unchanged and the session loading |
| `Chat.Exchange` | AIChat.tsx:22-31 | a send, then any typing or further presses of send during the `await`, then the reply, leaves the old turns, then the user turn, then one model turn with the reply, with loading off; the reply leaves the input buffer alone |
| `Chat.SecondSendRejected` | AIChat.tsx:20 | while a reply is awaited, a second send is rejected whatever was typed in the meantime |
| `Chat.DoubleSendHi` | AIChat.tsx:19-31 | two quick sends of "hi" and then the reply add exactly one user turn "hi" and one model turn |
| `Chat.AlternatingCounts` | AIChat.tsx:24-31 | in an alternating list the user turns outnumber the model turns by one when the length is odd (a reply is pending) and equal them otherwise |
| `Chat.ChatSession.constructor` | AIChat.tsx:8-10 | mounting starts with no turns, an empty buffer and loading off |
| `Chat.ChatSession.SetInput` | AIChat.tsx:95 | typing changes only the input buffer |
| `Chat.ChatSession.BeginSend` | AIChat.tsx:19-28 | in place: either nothing changes and no request is made, or one user turn is appended, the buffer is cleared, loading is set, and the request carries the earlier turns and the trimmed text |
| `Chat.ChatSession.CompleteSend` | AIChat.tsx:28-31 | in place: the reply is appended as one model turn, loading is cleared, and the buffer is untouched |

## Left out

- The gateway (`getIslamicAIResponse`, `generateDailyVerse` in geminiService.ts) is left out. It wraps a foreign client and `JSON.parse`. The reply is an arbitrary string parameter, which covers both the model's text and the fallback strings.
- App.tsx and Layout.tsx are left out. They switch modes and fetch the daily verse, and they hold no domain state.
- The `await` is modelled as two sequential steps. React re-render timing and the functional-update form `setScore(s => s + 1)` are modelled as plain sequential field updates, and there is no concurrency model.
- The scroll-to-bottom effect (AIChat.tsx:13-17), CSS classes and icons are left out because they are presentation only.
- The unused `showResult` cell (QuizGame.tsx:10) and the unused `WORD_GUESS` mode (types.ts:19) are left out.
- The contents of the question bank and of the featured hadith live in a `constants` file that is not part of this model. The bank is a parameter that satisfies `Quiz.WellFormedBank`.
- The finished screen and the explanation panel are not modelled beyond the score they display (QuizGame.tsx:39-60, 111-117).

# mock_interview in Dafny

A model of the three console runners of the mock-interview program:

- `app.py`, the runner without conversation memory;
- `app_memory.py` and `app_new.py`, the two runners whose feedback chain keeps a chat history per session id.

Each runner greets the candidate and walks a fixed list of questions. For
each question it captures a spoken answer, asks an LLM chain for
feedback on it (question, answer, and the question that comes next) and
speaks the feedback. It keeps a `{question, answer, feedback}` record for
each question and writes the list to `interview_responses.json` at the
end. Then it speaks a closing remark. `app.py` also passes every spoken
line through `clean_text`, the whitespace normaliser
`" ".join(text.split())`.

How the model is laid out:

- `interview.dfy` (module `Interview`) holds what the three runners share:
  - the capture outcomes and the answer string `listen_to_answer` gives for each (the outcome-to-answer mapping is the same in all three files; only the recogniser settings differ);
  - the follow-up rule and the request handed to the generator;
  - the record type and `Transcript`, the record list of a run given the generator's replies;
  - the events a run produces: spoken line, capture, generator call with its session id, wait for Enter, transcript write;
  - projections of an event trace (capture and pause counts, the requests made, the session ids used, the lines spoken) and how they distribute over concatenation.
- `history.dfy` (module `History`) models the session-scoped chat history of the two memory runners. Each call of the chain sees the history stored so far. Afterwards the wrapper appends one human message and one AI message. The human message is the value passed under `input`, always the placeholder `"some_input_value"`, because that is the key the wrapper is configured to record.
- `app.dfy` (module `App`) models `clean_text` on top of a model of `str.split()` and `" ".join`, and the `app.py` run loop.
- `app_memory.dfy` (module `AppMemory`) and `app_new.dfy` (module `AppNew`) model the two memory runners' loops.

Each `run_mock_interview` is a method with a `for` loop. It builds the record list and the event trace step by step, and in the memory variants it extends the stored history after every call. Its `ensures` equate the records and the trace with specification functions of its inputs:

- In `app.dfy`, `Script` and `Step` take the outcomes and the generator `gen` themselves. The request of call i is `RequestAt`, its reply is `FeedbackAt`, and the records are `Transcript` over `Feedbacks`, the replies of the whole run. The method's `ensures` name `Transcript` and `Script` directly.
- In `app_memory.dfy` and `app_new.dfy`, `Script` and `Step` take the requests and replies of the generator calls as parameters. This keeps the facts about the trace's shape independent of what the chain returns. The method's `ensures` bind those parameters to `RequestsBefore` and `RepliesBefore`, the requests and replies a run actually produces.

Lemmas then state what the runners promise about those functions: where each event sits, one capture per question, which pause follows which question, the order of the generator calls and their session ids, which lines are spoken, and what each record holds.

The answer capture is a sequence of outcomes, one per question. The
chain is a function parameter: `gen` for `app.py`, which sees only the
request, and `chain` for the memory runners, which also sees the session
id and the stored history. The history stored for the session when a
run starts is the parameter `stored`.

## Model

| member | source | states |
|---|---|---|
| Interview.AnswerText | app.py:76-85 | a recognised answer is returned as transcribed; an unknown-value failure gives `"[Unrecognized speech]"` and a request failure `"[Speech service error]"` (the same mapping is at app_memory.py:149-158 and app_new.py:90-99) |
| Interview.FailuresLeaveDistinctSentinels | app.py:80-85 | the two failure strings are non-empty and tell the two failures apart |
| Interview.FollowUp | app.py:97 | the follow-up for question i is question i+1 when there is one, and exactly `"No further questions."` for the last question |
| Interview.RequestAt | app.py:99-103 | the template variables of call i: question i, `AnswerText` of capture i and `FollowUp` of i; `RequestsBeforeAt` and `RequestOfRun` tie it to the calls a run makes |
| Interview.RequestsBefore | app.py:99-103 | one request per question handled so far |
| Interview.RequestsBeforeAt | app.py:93-103 | request i of a run carries question i, the answer captured for it and the follow-up of question i |
| Interview.RequestOfRun | app_memory.py:176-187 | the request of call i of a whole run is the one built for question i |
| Interview.Transcript | app.py:107-111 | the `responses` list a run writes, given its replies: record i is question i, `AnswerText` of capture i and reply i (the same append is at app_memory.py:195-199 and app_new.py:134-138); `History.TranscriptOfRun` and `App.RecordsAndSpokenFeedback` state what a run's records hold |
| Interview.TranscriptExtend | app.py:107-111 | each iteration extends the record list by exactly record i: question i, its answer and reply i |
| Interview.PauseAfter | app_memory.py:201-202 | the `input("Press Enter ...")` after question i: one `Pause` when another question follows, none after the last (the same test is at app_new.py:140-141); the `ScriptRounds` and `ScriptCounts` lemmas of both memory runners place and count the pauses |
| History.Exchange | app_memory.py:61-66 | one call adds exactly two messages: the human turn holding the `input` value, then the AI turn holding the reply |
| History.HistoryAt | app_memory.py:179-187 | the history of the session that call k sees: `stored` followed by one `Exchange` per earlier call, each built from that call's own reply; `HistoryGrowth` and `HistoryExtends` state its shape |
| History.ReplyAt | app_memory.py:179-190 | the reply of call i: `chain` applied to the session id, `HistoryAt` of i and `RequestAt` of i; `RepliesBeforeAt` and `ReplyOfRun` tie it to the replies a run speaks and records |
| History.HistoryGrowth | app_memory.py:179-187 | after k calls the session history holds its earlier contents unchanged, followed by k exchanges; the human turn of each is the placeholder input (never the question or answer) and the AI turn is that call's reply |
| History.HistoryExtends | app_memory.py:28-30 | every call sees an extension of what each earlier call of the run saw |
| History.RepliesBefore | app_memory.py:179-190 | one reply per call made so far |
| History.RepliesBeforeAt | app_memory.py:179-190 | reply i is the chain's answer to request i given the history stored before call i |
| History.ReplyOfRun | app_new.py:118-129 | the reply of call i of a whole run is the chain applied to the session id, the history stored before it and request i |
| History.TranscriptOfRun | app_memory.py:195-199 | a run's records number one per question and record i is question i, the answer captured for it and the reply of call i, unchanged |
| App.IsWhitespace | app.py:63 | the characters `str.split()` without a separator splits on, as CPython defines them: TAB to CR, 0x1C to SPACE, NEL, NO-BREAK SPACE and the Unicode space separators |
| App.Split | app.py:63 | `text.split()`: the maximal runs of non-whitespace characters, in order, with leading, trailing and repeated whitespace producing no empty words; `SplitWords`, `SplitKeepsNonWhitespace` and `SplitJoin` carry its properties |
| App.Join | app.py:63 | `sep.join(words)`: the words with `sep` between consecutive ones; `JoinNormalized`, `JoinKeepsNonWhitespace` and `SplitJoin` carry its properties |
| App.CleanText | app.py:61-63 | `Join(" ", Split(text))`, the shape of `" ".join(text.split())`; the `CleanText*` lemmas below carry its properties |
| App.WordLength | app.py:63 | the first word of a string is no longer than the string |
| App.WordLengthRun | app.py:63 | the first word is a maximal run of non-whitespace characters |
| App.SplitWords | app.py:63 | every element of `str.split()`'s result is non-empty and has no whitespace |
| App.SplitKeepsNonWhitespace | app.py:63 | the words of a string hold its non-whitespace characters, in order |
| App.JoinKeepsNonWhitespace | app.py:63 | joining words with single spaces keeps their characters, in order, and adds only whitespace |
| App.JoinNormalized | app.py:63 | a single-space join of words has no whitespace at either end and never two in a row; it is empty exactly when there are no words |
| App.SplitJoin | app.py:63 | `str.split()` gives back the words that were joined with single spaces |
| App.NormalizedIsJoinOfWords | app.py:63 | a normalized line is the single-space join of its own words |
| App.CleanTextNormalized | app.py:61-63 | `clean_text` output has no leading or trailing whitespace, no newline or tab, and never two spaces in a row |
| App.CleanTextKeepsNonWhitespace | app.py:63 | `clean_text` keeps the non-whitespace characters of its input, in order |
| App.CleanTextKeepsWords | app.py:63 | splitting the output of `clean_text` gives the words of its input |
| App.CleanTextEmpty | app.py:63 | `clean_text` gives the empty string exactly for whitespace-only input |
| App.CleanTextFixpoint | app.py:63 | `clean_text` leaves a line unchanged exactly when it is normalized |
| App.CleanTextIdempotent | app.py:61-63 | `clean_text(clean_text(t)) == clean_text(t)` |
| App.Say | app.py:65-68 | `speak(text)`: the engine is handed `clean_text(text)`, never the raw text; `ScriptSpoken` and `RecordsAndSpokenFeedback` depend on it |
| App.FeedbackAt | app.py:99-103 | the reply of call i: `gen` applied to `RequestAt` of i, with no session id and no history |
| App.Feedbacks | app.py:99-103 | one generator reply per question of the run |
| App.Opening | app.py:90-91 | the two lines spoken before the loop: the cleaned greeting and the cleaned first question |
| App.Step | app.py:93-111 | iteration i: capture, the call for `RequestAt` of i with no session id, then the cleaned reply; no pause, because the `input` at app.py:113 is commented out |
| App.Steps | app.py:93-111 | the events of iterations 0 to k-1, in order; `StepsLength` and `StepIn` locate each iteration in it |
| App.Script | app.py:87-118 | everything a run does: `Opening`, `Steps` over all questions, the write of `Transcript` over `Feedbacks`, and the cleaned closing remark; `ScriptEnds`, `ScriptRounds`, `ScriptCounts`, `ScriptRequests` and `ScriptSpoken` state its properties |
| App.TraceExtend | app.py:93-111 | the trace after i+1 iterations is the trace after i followed by iteration i's events |
| App.SpokenFeedback | app.py:105 | the cleaned replies of iterations 0 to k-1, in order |
| App.SpokenFeedbackAt | app.py:99-105 | spoken feedback line i is `clean_text` of reply i of the run's `Feedbacks`, and there is one line per iteration |
| App.RunMockInterview | app.py:87-118 | the records are one per question, each holding the question, the captured answer and the raw generator reply; the trace is the greeting and the first question, three events per question, the write of exactly those records, then the closing remark |
| App.StepsLength | app.py:93-111 | each iteration produces three events |
| App.StepIn | app.py:93-111 | iteration i's events sit at positions 3i to 3i+2 of the loop's events |
| App.ScriptEnds | app.py:90-118 | a run starts by speaking the cleaned greeting and the cleaned first question, and ends by writing the records, then speaking the cleaned closing remark |
| App.ScriptRounds | app.py:93-105 | for every question, in order: capture, the generator call for that question with no session id, then the reply spoken through `clean_text` |
| App.RecordsAndSpokenFeedback | app.py:105-111 | record i keeps the generator's reply as returned; only the spoken copy is passed through `clean_text` |
| App.StepsCounts | app.py:93-113 | k iterations capture k times and never pause |
| App.StepsRequests | app.py:96-103 | k iterations make the first k requests, in order, none with a session id |
| App.StepsSpoken | app.py:105 | k iterations speak exactly the cleaned replies to the first k requests |
| App.ScriptCounts | app.py:87-118 | a run captures once per question, never retries, and never waits for Enter |
| App.ScriptRequests | app.py:93-103 | a run makes one generator call per question, in question order, with the follow-up rule applied and no session id |
| App.OwnQuestionsRun | app.py:52-59 | the program's own list has six questions, so it meets the run's precondition; a run over it has 22 events, six captures and no pause |
| App.ScriptSpoken | app.py:90-118 | the lines a run speaks are the greeting, the first question, each reply and the closing remark, each cleaned; no later question is spoken |
| AppMemory.Opening | app_memory.py:165-166 | the greeting and the first question, spoken as they are |
| AppMemory.Step | app_memory.py:168-202 | iteration i: capture, call i under the session id, reply i spoken as it is, then `PauseAfter` of i; the question is not spoken (`speak(q)` at app_memory.py:170 is commented out) |
| AppMemory.Steps | app_memory.py:168-202 | the events of iterations 0 to k-1, in order; `StepsLength` and `StepIn` locate each iteration in it |
| AppMemory.Script | app_memory.py:162-208 | everything a run does: `Opening`, `Steps` over all questions, the transcript write and the closing remark; the `Script*` lemmas state its properties |
| AppMemory.TraceExtend | app_memory.py:168-202 | the trace after i+1 iterations is the trace after i followed by iteration i's events |
| AppMemory.RunMockInterview | app_memory.py:162-208 | the records are one per question, holding the question, the captured answer and the chain's reply; the trace is the greeting and the first question, then per question capture, the call under the run's session id, the spoken reply and the pause after every question but the last, then the write of exactly those records and the closing remark; the history store ends extended by one exchange per call |
| AppMemory.StepsLength | app_memory.py:168-202 | four events per iteration, three for the run's last |
| AppMemory.StepIn | app_memory.py:168-202 | iteration i's events start at position 4i of the loop's events |
| AppMemory.ScriptEnds | app_memory.py:165-208 | a run starts by speaking the greeting and the first question, and ends by writing the records, then speaking the closing remark |
| AppMemory.ScriptRounds | app_memory.py:168-202 | for every question, in order: capture, generator call i under the session id, reply i spoken as is; the pause follows every question but the last |
| AppMemory.StepsCounts | app_memory.py:173-202 | k iterations capture k times and pause k times, or k-1 times when they include the last question |
| AppMemory.StepsRequests | app_memory.py:179-187 | k iterations make the first k calls, in order, all under the session id |
| AppMemory.StepsSpoken | app_memory.py:190-192 | k iterations speak exactly the first k replies |
| AppMemory.ScriptCounts | app_memory.py:168-202 | a run captures once per question, never retries, and waits for Enter N-1 times for N questions |
| AppMemory.ScriptRequests | app_memory.py:162-187 | a run makes its calls in order and every call uses the one session id the run was given |
| AppMemory.OwnQuestionsRun | app_memory.py:68-79 | the program's own list has six questions, the commented-out ones not counting, so it meets the run's precondition; a run over it has 27 events, six captures and five pauses |
| AppMemory.ScriptSpoken | app_memory.py:165-208 | the lines a run speaks are the greeting, the first question only, each reply and the closing remark |
| AppNew.Step | app_new.py:107-141 | iteration i: question i spoken, capture, call i under the session id, reply i spoken, then `PauseAfter` of i |
| AppNew.Steps | app_new.py:107-141 | the events of iterations 0 to k-1, in order; `StepsLength` and `StepIn` locate each iteration in it |
| AppNew.Script | app_new.py:102-147 | everything a run does: the greeting, `Steps` over all questions, the transcript write and the closing remark, with no question spoken before the loop; the `Script*` lemmas state its properties |
| AppNew.TraceExtend | app_new.py:107-141 | the trace after i+1 iterations is the trace after i followed by iteration i's events |
| AppNew.QuestionsAndReplies | app_new.py:109-131 | the lines the first k iterations speak: question 0, reply 0, question 1, reply 1, and so on |
| AppNew.RunMockInterview | app_new.py:102-147 | the records are one per question, holding the question, the captured answer and the chain's reply; the trace is the greeting, then per question the question spoken, capture, the call under the run's session id, the spoken reply and the pause after every question but the last, then the write of exactly those records and the closing remark; the history store ends extended by one exchange per call; an empty question list is accepted |
| AppNew.StepsLength | app_new.py:107-141 | five events per iteration, four for the run's last |
| AppNew.StepIn | app_new.py:107-141 | iteration i's events start at position 5i of the loop's events |
| AppNew.ScriptEnds | app_new.py:105-147 | a run starts by speaking the greeting and ends by writing the records, then speaking the closing remark; with no questions it is just those three events |
| AppNew.ScriptRounds | app_new.py:107-141 | for every question, in order: the question spoken, then capture, generator call i under the session id and reply i spoken; the pause follows every question but the last |
| AppNew.StepsCounts | app_new.py:112-141 | k iterations capture k times and pause k times, or k-1 times when they include the last question |
| AppNew.StepsRequests | app_new.py:118-126 | k iterations make the first k calls, in order, all under the session id |
| AppNew.QuestionsAndRepliesAt | app_new.py:109-131 | the spoken lines of the loop alternate question i and reply i |
| AppNew.StepsSpoken | app_new.py:109-131 | k iterations speak each of the first k questions followed by its reply, and nothing else |
| AppNew.ScriptCounts | app_new.py:107-141 | a run captures once per question, never retries, and waits for Enter N-1 times for N > 0 questions |
| AppNew.ScriptRequests | app_new.py:102-126 | a run makes its calls in order and every call uses the one session id the run was given |
| AppNew.OwnQuestionsRun | app_new.py:69-76 | the program's own list has six questions; a run over it has 32 events, six captures and five pauses |
| AppNew.ScriptSpoken | app_new.py:105-147 | the lines a run speaks are the greeting, each question followed by its reply, and the closing remark; no question is spoken before the loop |

## Left out

- Speech recognition is replaced by the sequence of capture outcomes: microphone, ambient-noise calibration, pause threshold, phrase time limit and the Google recogniser.
- Text-to-speech (`pyttsx3`, `runAndWait`) is left out; a spoken line is a `Speak` event.
- The LLM and the LangChain plumbing are function parameters: `gen` in `app.py` and `chain` in the memory variants. This covers the prompt template, the model and the `.content` attribute. The prompt's instructions to the LLM are text the code never checks.
- The SQLite store behind the chat history is left out. The history held for the session when a run starts is the parameter `stored`, and the history at the end is the out-parameter `store`.
- JSON serialisation and the file write are left out; the write is a `Save` event carrying the records.
- Console output is left out. `print` produces nothing in the model, and `input("Press Enter ...")` is a `Pause` event whose typed text is ignored.
- Loading environment variables and the API key is left out.
- The entry point's time-based session id is left out; the session id is a parameter of the run.
- The methods take the question list as a parameter. Each module keeps that runner's own list as `Questions`, which `OwnQuestionsRun` applies the run lemmas to; `app_memory.py`'s commented-out questions are excluded and `app_new.py`'s "vica" is kept as written.
- An exception raised by the generator would end the program, because none of the three runners catches it; the generator is modelled as total.
- `clean_text` works on Unicode scalar values. The whitespace set is the one CPython's `str.split()` uses, written out in `App.IsWhitespace`.
- App.RunMockInterview: an empty question list is excluded by `requires |questions| > 0`. On an empty list the source speaks the greeting and then raises `IndexError` at `speak(questions[0])` (app.py:91); the model does not represent that crash. The program's own list is non-empty (`App.OwnQuestionsRun`).
- AppMemory.RunMockInterview: the same exclusion, for the same `IndexError` at app_memory.py:166. The program's own list is non-empty (`AppMemory.OwnQuestionsRun`).
- App.RunMockInterview: `gen` is a mathematical function of the request, so two calls with equal requests get equal feedback; the sampled LLM may answer them differently. The memory variants are not affected the same way, because each call there also sees a longer history.
- App.RunMockInterview: writing the transcript and speaking a line always succeed. In the source, a failing `open` or `json.dump` (app.py:115-116) or a failing speech engine raises, and the run ends before the closing remark.
- AppMemory.RunMockInterview: the same for the write at app_memory.py:205-206 and for the speech engine.
- AppNew.RunMockInterview: the same for the write at app_new.py:144-145 and for the speech engine.

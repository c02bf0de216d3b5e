# Quiz session of `intelligent_system_quiz`

A Dafny model of the quiz web application's request handler. Each client has a
session. The first request draws up to 40 distinct questions from the question
bank `domande.json`. Only questions whose keys are made of digits qualify. Each
later request then does one of these:

- grades the submitted option for the current question (`rispondi`);
- moves to the next question (`prossima`);
- only shows the current page.

When the cursor passes the last drawn question, the closing page shows the two
counters. The reset route empties the session, so the next request draws a new
quiz.

The model has four modules:

- `QuestionBank` (`bank.dfy`) holds the bank as a map from key to question and
  the digit-key filter. It also holds the draw without replacement. The draw is
  a method that may return any valid sample: `IsSample` says which ones are
  valid.
- `QuizState` (`quiz_state.dfy`) holds the session's five entries as a `State`
  value. It gives the action part of a request as `Act`, the page built
  afterwards as `Render`, and a whole request as `Serve`. `Run` and `Graded`
  extend these to a sequence of requests.
- `QuizTraces` (`traces.dfy`) holds the lemmas about sequences of requests.
- `QuizSessions` (`session.dfy`) holds the class `QuizSession`. Its fields are
  the session entries, which the handler changes in place. Its `Handle` and
  `Reset` methods are the two routes. `Handle` starts the quiz if needed and
  then calls `Apply` (proved against `Act`) and `Page` (proved against
  `Render`); as a whole it is proved against `Serve`. The ghost field `answered` counts the graded answers, and `Valid()`
  keeps `corrette + errate == answered`.

This version of the handler has no adaptive selection, no per-question
statistics, no pagination, no deadlines and no percentage scores, so the
model has none either.

## Model

| member | source | states |
|---|---|---|
| QuestionBank.AllDigits | intelligent_system_quiz.py:14 | the character-by-character digit check holds exactly when every character of the key is a digit |
| QuestionBank.IsDigitKey | intelligent_system_quiz.py:14 | a key qualifies iff it is non-empty and all its characters are digits (the empty key does not qualify, as with `"".isdigit()`) |
| QuestionBank.EligibleKeys | intelligent_system_quiz.py:14 | the eligible keys are keys of the bank, every one of them passes the digit filter, and every bank key that passes is among them |
| QuestionBank.Sample | intelligent_system_quiz.py:15 | the draw returns distinct keys of the pool, exactly min(n, pool size) of them; an empty pool gives an empty selection |
| QuizState.Fresh | intelligent_system_quiz.py:15-19 | a newly started session keeps the drawn keys, with cursor 0, both counters 0 and the outcome hidden |
| QuizState.Start | intelligent_system_quiz.py:13-19 | a session that already holds a quiz is used as it is; only a session without one is started, and then it is exactly the fresh session on the drawn keys |
| QuizState.Finished | intelligent_system_quiz.py:43 | the end-of-quiz test: while the quiz is not over the cursor points at a drawn key; an empty selection is over from the start |
| QuizState.Grade | intelligent_system_quiz.py:30-32 | an answer is right iff an option was submitted and it equals the stored right one; a missing option is always wrong |
| QuizState.Act | intelligent_system_quiz.py:25-40 | `rispondi` raises an index error past the end and a key error for a key missing from the bank; otherwise it adds one to exactly one counter (`corrette` iff the answer matches), shows the outcome, and keeps the cursor and the keys. `prossima` adds one to the cursor with no upper bound, hides the outcome and keeps the counters. Any other request, a GET included, changes nothing |
| QuizState.Render | intelligent_system_quiz.py:43-60 | the closing page appears iff the cursor is past the last key, and it carries exactly the two counters; an error page appears iff the current key is missing from the bank, and it is the key error for that key; a question page shows number `indice + 1` of the number of keys, the current key's question and options, and the right option iff the outcome is shown |
| QuizState.Serve | intelligent_system_quiz.py:9-60 | a whole request: the session afterwards is the start followed by one action; keys are drawn only for a new session; `rispondi` on a finished quiz answers with the index error; the closing page carries the session's counters |
| QuizState.Next | intelligent_system_quiz.py:25-40 | the session after one request: a request that raises leaves it as it was; no request changes the drawn keys or moves the cursor or a counter back |
| QuizTraces.RunMonotone | intelligent_system_quiz.py:25-40 | over any sequence of requests without a reset, the keys stay the same and the cursor and both counters only grow |
| QuizTraces.RunKeepsSelection | intelligent_system_quiz.py:13-40 | a valid starting selection stays valid after any sequence of requests: distinct, all digit keys of the bank, of the drawn length |
| QuizTraces.RunCounters | intelligent_system_quiz.py:28-37 | the two counters together grow by exactly the number of `rispondi` requests that were graded |
| QuizTraces.FreshCounters | intelligent_system_quiz.py:16-37 | in a fresh session, `corrette + errate` equals the number of `rispondi` requests graded since it started |
| QuizTraces.FinishedStays | intelligent_system_quiz.py:28-43 | once the quiz is finished, it stays finished under any requests, nothing more is graded, and both counters stay frozen |
| QuizTraces.RepeatedAnswers | intelligent_system_quiz.py:28-37 | there is no once-per-question guard: k answers to the same question are all graded, add k to one counter (the right one iff the answer matches), and leave the cursor in place |
| QuizTraces.RepeatedNext | intelligent_system_quiz.py:38-40 | k `prossima` requests add exactly k to the cursor, keep the keys and counters, and hide the outcome |
| QuizTraces.QuizEndsAfterEveryQuestion | intelligent_system_quiz.py:38-43 | starting fresh, the quiz is finished after k `prossima` requests iff k is at least the number of drawn keys |
| QuizSessions.QuizSession.constructor | intelligent_system_quiz.py:13 | a new client's session holds no quiz |
| QuizSessions.QuizSession.Reset | intelligent_system_quiz.py:62-65 | the reset route drops every entry of the session |
| QuizSessions.QuizSession.Apply | intelligent_system_quiz.py:25-40 | the in-place action: the new fields are those `Act` gives, a failure leaves every field as it was, and the graded-answer count grows by one exactly when a `rispondi` is graded |
| QuizSessions.QuizSession.Page | intelligent_system_quiz.py:43-60 | the reply built from the fields is the page `Render` gives: the closing page iff the cursor is past the keys; otherwise question `indice + 1` of the total, with the right option iff the outcome is shown, or the key error when the current key is missing from the bank |
| QuizSessions.QuizSession.Handle | intelligent_system_quiz.py:9-60 | the in-place handler draws a valid selection only when the session holds no quiz, and never re-draws an existing one; its new fields and reply are exactly those `Serve` gives; it keeps `corrette + errate` equal to the graded answers |
| QuizSessions.ResetStartsOver | intelligent_system_quiz.py:13-65 | a reset followed by a request gives a fresh session on a valid selection; the reply is the closing page iff the selection is empty, and otherwise question 1, with no answers counted and the right option hidden |

## Left out

- Flask routing, `render_template`, `redirect`, the secret key and the server start-up are not modelled. A reply is a `Response` value that lists the template's arguments.
- Reading `domande.json` on every request is not modelled. The bank read on a request is a parameter of `Handle`. A drawn key that is missing from that request's bank gives `KeyError`, as the source's dictionary lookups would.
- The JSON entries are assumed well-formed. An entry without `giusta`, `domanda` or `risposte`, and a `giusta` that is not a string, are not modelled.
- `random.sample` is not modelled as a generator. `Sample` may return any valid draw, so the order of the dictionary's keys does not matter.
- QuestionBank.IsDigitChar: accepts only the ASCII digits. Python's `str.isdigit` also accepts other Unicode digits, such as superscripts.
- When a request raises, the model keeps the session changes made before the failure, including the lazy start. Whether Flask saves the session cookie on an error response is not modelled.
- Signing and serialising the session cookie is not modelled. Concurrent requests from one client's tabs are not modelled either.

# Chat questionnaire: the follow-up state machine

This project models the core of a small Streamlit page (`app.py`). The page asks
five open-ended preset questions about intellectual humility. For each one:

- The user's answer goes to a language-model "follow-up generator".
- The non-blank lines of the generator's reply become a queue of follow-up
  questions, posted one at a time.
- Once the queue is used up, the question is finalised as one response record.

After the last preset question the page waits for the word "final". It then
sends the rendered responses to a language-model "scorer" and posts the
assessment under a heading.

The model has six modules:

- `Text` (`text.dfy`): the Python string built-ins the page uses, over ASCII.
  These are `str.strip()`, `str.lower()`, `str.split("\n")` and `str(int)`
  inside an f-string. `Join` (`"\n".join`) is not used by the page; it is the
  inverse of `Split` that the round-trip lemmas are stated with.
- `Records` (`records.dfy`): the response dictionary, whose keys may be absent,
  and the transcript entries.
- `FollowUpQueue` (`follow_up_queue.dfy`): the list comprehension that parses
  the generator's reply into the queue, with its properties.
- `ScorerPrompt` (`scorer_prompt.dfy`): the loop in `get_final_score` that
  renders the response list.
  - It is a recursive function that accumulates text, as the `+=` loop does.
  - It is proved equal to an independent line-by-line reference definition.
- `Conversation` (`conversation.dfy`): one page run as a function `Next` from
  (session state, input, generator reply, scorer reply) to (new state, external
  call made).
  - Lemmas cover each phase.
  - `Inv` is the invariant kept between runs.
  - Other lemmas cover runs of several turns: a whole preset question, and the
    final phase.
- `Session` (`session.dfy`): class `ChatSession`, with one field per
  `st.session_state` key.
  - The methods update the fields in place, statement by statement as the page
    does, including the spinner entry that is overwritten in place.
  - Each method is proved to leave exactly the state, and to make exactly the
    call, that `Conversation` gives.
  - The constructor establishes `Inv`. `Greet`, `HandleInput`, `PageRun` and
    the three phase branches `AnswerPreset`, `AnswerFollowUp` and `AnswerFinal`
    keep it. Like the page, the branches run only for a non-empty input.
    `ApplyPreset` and `RecordFollowUp` are the field updates inside
    `AnswerPreset` and `AnswerFollowUp`.

The two model calls are inputs, not computations:

- `generatorReply` is what the follow-up generator returns if the turn calls it.
- `assessment` is what the scorer returns if the turn calls it.
- The `Call` result records which of them the turn called, with its arguments:
  - the preset question and answer for the generator;
  - the response list for the scorer, whose prompt body is `ScorerPrompt.ResponsesText`.

The fixed texts the page posts are bundled in `Conversation.Wording`. The
constructor sets them to the page's own strings (`AppWording`). The
specification functions take the questions and the wording as parameters.

Behaviour of the page that the model keeps as it is:

- The generator receives only the preset question and the answer (app.py:139-142), as the `Generator` call records.
- Every "final" command calls the scorer again on the same responses; nothing marks the assessment as done (`Conversation.ScorerCalledAgain`).
- The final phase scores only on the "final" command and posts a reminder for any other input (app.py:198-209).
- An empty follow-up queue still takes one more user input, which is recorded as the question's only follow-up answer (app.py:151-155, 171-174).

## Model

| member | source | states |
|---|---|---|
| FollowUpQueue.KeepNonBlank | app.py:145 | the comprehension `[l.strip() for l in lines if l.strip()]`; its properties are in KeepNonBlankAppend, KeepNonBlankWellFormed, KeepNonBlankEmpty and KeepWellFormed |
| FollowUpQueue.ParseFollowUps | app.py:145 | the queue for a generator reply: the comprehension over `reply.split("\n")`; its properties are in ParsedQueueWellFormed, ParseLines, ParseOneLine, ParseEmptyIff and ParseJoin |
| FollowUpQueue.ParsedQueueWellFormed | app.py:145 | every queue entry is non-empty, has no leading or trailing whitespace and holds no line feed; the queue has at most as many entries as the reply has lines |
| FollowUpQueue.KeepNonBlankWellFormed | app.py:145 | the comprehension over line-feed-free lines yields only well-formed entries, no more entries than lines |
| FollowUpQueue.KeepNonBlankAppend | app.py:145 | the comprehension works line by line: the entries of earlier lines come first, in order |
| FollowUpQueue.ParseLines | app.py:145 | parsing `a + "\n" + b` gives the entries of `a` followed by those of `b` (order of appearance is kept) |
| FollowUpQueue.ParseOneLine | app.py:145 | a single line yields its stripped text, or nothing when it is whitespace only |
| FollowUpQueue.KeepNonBlankEmpty | app.py:145 | the comprehension is empty exactly when every line is whitespace |
| FollowUpQueue.ParseEmptyIff | app.py:145 | the queue is empty exactly when the whole reply is whitespace only |
| FollowUpQueue.KeepWellFormed | app.py:145 | the comprehension leaves a list of well-formed entries unchanged |
| FollowUpQueue.ParseJoin | app.py:145 | a well-formed queue written one entry per line parses back to itself |
| Text.Strip | app.py:145 | `strip()` returns a string with no whitespace at either end, and returns empty exactly when its input is whitespace only |
| Text.StripInfix | app.py:145 | `strip()` keeps one contiguous piece of its input and removes only whitespace before and after it |
| Text.StripExactly | app.py:145 | whitespace, a stripped core, whitespace: `strip()` returns that core, and no other decomposition exists |
| Text.StripCore | app.py:145 | StripExactly for a non-empty core |
| Text.StripStripped | app.py:145 | `strip()` leaves a stripped string unchanged |
| Text.Lower | app.py:198 | `lower()` over ASCII keeps the length; FinalWordCases characterises the words it maps to "final" |
| Text.Split | app.py:145 | `split("\n")` yields at least one piece, and no piece holds the separator |
| Text.JoinSplit | app.py:145 | joining the pieces of `split(sep)` with `sep` gives back the string |
| Text.SplitJoin | app.py:145 | splitting a join of separator-free pieces gives back the pieces |
| Text.SplitAt | app.py:145 | splitting at one separator splits both sides independently |
| Text.SplitAllSpace | app.py:145 | the pieces of a whitespace string are whitespace |
| Text.JoinAllSpace | app.py:145 | a join of whitespace pieces at a whitespace separator is whitespace |
| Text.NatToString | app.py:57 | the f-string rendering of an index is a non-empty string of decimal digits with no leading zero |
| Text.DecimalRoundTrip | app.py:57 | reading back the rendering of `n` gives `n`, so distinct question numbers render distinctly |
| ScorerPrompt.FollowUpText | app.py:59-61 | the inner loop's accumulated text; FollowUpTextLines relates it to the reference lines |
| ScorerPrompt.BlockText | app.py:57-62 | the text one outer pass adds; BlockTextLines relates it to the reference lines |
| ScorerPrompt.ResponsesText | app.py:56-62 | the accumulated prompt body; ResponsesTextLines and ResponsesTextSplit carry its properties |
| ScorerPrompt.FollowUpTextLines | app.py:59-61 | the inner loop emits one line `Follow-up i Answer: a` per answer, numbered from 1, in order |
| ScorerPrompt.BlockTextLines | app.py:57-62 | one outer pass emits the `Question k:` line, the `Preset Answer:` line (empty when the key is absent), the follow-up lines only when the key is present, then a blank line |
| ScorerPrompt.LinesOfBlock | app.py:57-62 | the lines of a block render as question line, preset line, follow-up lines, blank line |
| ScorerPrompt.BodyLinesSnoc | app.py:56 | one more response adds exactly its block, numbered after all earlier ones |
| ScorerPrompt.FollowUpLinesSnoc | app.py:60 | one more follow-up answer adds exactly its line, numbered after all earlier ones |
| ScorerPrompt.LinesAppend | app.py:56-62 | rendering lines distributes over concatenation |
| ScorerPrompt.LinesJoin | app.py:56-62 | the rendered lines are the lines joined by line feeds, ending with a line feed |
| ScorerPrompt.ResponsesTextLines | app.py:56-62 | the accumulated text is one block per response, in list order, with questions numbered from 1 |
| ScorerPrompt.FollowUpLinesSingle | app.py:59-61 | a follow-up line holds no line feed when its answer holds none |
| ScorerPrompt.BodyLinesSingle | app.py:56-62 | no rendered line holds a line feed when no answer holds one |
| ScorerPrompt.ResponsesTextSplit | app.py:56-62 | when no answer holds a line feed, the text splits into exactly the blocks' lines followed by the empty piece after the final line feed |
| Conversation.Initial | app.py:100-116 | the first value of every session key; InitialInv carries its properties |
| Conversation.Greeted | app.py:118-121 | the greeting check; InitialInv and GreetedInv carry its properties |
| Conversation.IsFinalCommand | app.py:198 | `input.strip().lower() == "final"`; FinalCommandPadded and FinalCommandShape characterise it |
| Conversation.PresetStep | app.py:126-158 | the preset branch; PresetAnswered, PresetPosted and PresetStepInv carry its properties |
| Conversation.PresetWith | app.py:128-158 | the preset branch once the reply is parsed; PresetStep is it applied to the parsed reply |
| Conversation.FollowUpStep | app.py:161-193 | the follow-up branch; FollowUpAnswered, QuestionFinished and FollowUpStepInv carry its properties |
| Conversation.FinalStep | app.py:196-209 | the final branch; FinalTurn and FinalStepInv carry its properties |
| Conversation.Inv | app.py:100-209 | what holds between page runs; NextInv proves every turn keeps it |
| Conversation.Next | app.py:124-209 | a turn never leaves the preset phase pointing past the question list |
| Conversation.InitialInv | app.py:100-121 | the fresh session and the greeted fresh session keep the invariant; the greeting posts the first question |
| Conversation.GreetedInv | app.py:118-121 | the greeting keeps the invariant |
| Conversation.PresetStepInv | app.py:126-158 | a preset answer keeps the invariant |
| Conversation.FollowUpStepInv | app.py:161-193 | a follow-up answer keeps the invariant |
| Conversation.FinalStepInv | app.py:196-209 | a final-phase input keeps the invariant |
| Conversation.NextInv | app.py:124-209 | every turn keeps the invariant: index within bounds, one finished response per passed question with that question, final phase exactly when all are passed, follow-up index within the queue, per-question fields cleared outside the follow-up phase |
| Conversation.ReplayInv | app.py:124-209 | every run of turns keeps the invariant |
| Conversation.InputRecorded | app.py:124-209 | an empty input changes nothing and calls nothing; any other input appends exactly one user entry holding it, then exactly one assistant entry |
| Conversation.PresetAnswered | app.py:126-158 | a preset answer stores the answer and its question, calls the generator with both, queues the parsed reply, sets the follow-up index to 1 or 0, clears the follow-up answers, enters the follow-up phase and adds the answer plus the first queued question or the no-follow-up notice |
| Conversation.PresetPosted | app.py:134-155 | the spinner entry is overwritten in place, so the transcript gains exactly the answer and what replaced the spinner |
| Conversation.FollowUpAnswered | app.py:161-170 | while queued questions remain, the answer is appended, the next queued question is posted, the index moves on by one, the phase stays, nothing else changes and no model is called |
| Conversation.QuestionFinished | app.py:171-193 | after the last queued question, the response with all follow-up answers is appended, the per-question fields are reset, the index moves on by one, and the phase is preset (posting the next question) or final (posting the notice); no model is called |
| Conversation.FinalTurn | app.py:196-209 | in the final phase only the transcript changes; the scorer is called on the responses exactly when the input is the final command, and its assessment is posted under the heading; otherwise the reminder is posted and no model is called |
| Conversation.RepliesReadOnlyByTheirCall | app.py:139-142 | the generator's reply matters only to a turn that calls the generator, the scorer's only to a turn that calls the scorer, and which call is made depends on neither |
| Conversation.FinalCommandPadded | app.py:198 | the final command is recognised with any surrounding whitespace and in any letter case |
| Conversation.FinalCommandShape | app.py:198 | only such inputs are recognised: whitespace, a five-letter word that lower-cases to "final", whitespace |
| Conversation.FinalWordCases | app.py:198 | a word lower-cases to "final" exactly when each letter is the lower- or upper-case letter of "final" |
| Conversation.FollowUpRun | app.py:161-193 | in the follow-up phase the question takes one answer per question still queued plus one; the queued questions are posted in order; the question ends with all follow-up answers |
| Conversation.FollowUpPending | app.py:166-170 | before the last of those answers, the session stays in the follow-up phase, one queued question further per answer |
| Conversation.ReplayFollowUps | app.py:161-193 | while follow-up answers are due, each turn is a follow-up step |
| Conversation.FollowUpTurns | app.py:161-193 | FollowUpRun, stated for the turns of a run |
| Conversation.FollowUpTurnsPending | app.py:166-170 | FollowUpPending, stated for the turns of a run: the phase stays follow-up and the follow-up index moves on by one per turn |
| Conversation.PresetQueued | app.py:145-158 | after a preset answer, the answers due are the queued questions left to post plus one, which is the number of parsed lines, or one when there are none |
| Conversation.QuestionCycle | app.py:126-193 | a whole preset question takes its answer and then as many follow-up answers as the reply has non-blank lines (one when it has none); each queued question is posted once, in order; one response holding the question, the preset answer and the follow-up answers is appended |
| Conversation.QuestionPending | app.py:151-170 | the question does not end before its last follow-up answer |
| Conversation.FinalPersists | app.py:196-209 | whatever the user types in the final phase, the phase, the responses and the question index stay as they are |
| Conversation.ScorerCalledAgain | app.py:198-200 | there is no guard: every final command, however many came before, calls the scorer again on the same responses |
| Session.ChatSession.constructor | app.py:100-116 | every session key starts at its first value, which keeps the invariant |
| Session.ChatSession.Greet | app.py:118-121 | posts the current preset question when the transcript is empty, and keeps the invariant |
| Session.ChatSession.HandleInput | app.py:123-209 | the in-place turn leaves exactly the state and makes exactly the call that `Conversation.Next` gives, and keeps the invariant |
| Session.ChatSession.PageRun | app.py:118-209 | a page run is the greeting check followed by the turn |
| Session.ChatSession.AnswerPreset | app.py:126-158 | the in-place preset branch leaves exactly the state and makes exactly the call of `Conversation.PresetStep`, and keeps the invariant |
| Session.ChatSession.ApplyPreset | app.py:128-158 | the field updates of the preset branch, including the overwritten spinner entry, once the reply is parsed |
| Session.ChatSession.AnswerFollowUp | app.py:161-193 | the in-place follow-up branch leaves exactly the state of `Conversation.FollowUpStep`, and keeps the invariant |
| Session.ChatSession.RecordFollowUp | app.py:163-193 | the field updates of the follow-up branch leave exactly the state of `Conversation.FollowUpStep` |
| Session.ChatSession.AnswerFinal | app.py:196-209 | the in-place final branch leaves exactly the state and makes exactly the call of `Conversation.FinalStep`, and keeps the invariant |

## Left out

- The language-model calls (app.py:35-40, 67-72) are foreign network calls. Their results are the inputs `generatorReply` and `assessment`. Their errors are not modelled.
- The prompt prose of `get_assistant_follow_up` (app.py:22-30) is not modelled. It carries no behaviour beyond interpolating the question and the answer. The `Generator` call records exactly those two values.
- The fixed header text of `get_final_score` (app.py:44-55) is not modelled. The `Scorer` call records the response list, and `ScorerPrompt.ResponsesText` renders the part built from it.
- Secrets and client setup (app.py:6-8) are configuration.
- All Streamlit presentation is UI: the title and description, `st.chat_input`, `st.spinner` and `display_chat` (app.py:74-98, 123, 199, 212). The chat input arrives as the string `userInput`. A missing input is the empty string.
- `str.strip()` and `str.lower()` are modelled over ASCII: whitespace is 0x09-0x0D and 0x1C-0x20, and only A-Z are lower-cased. Python's full Unicode tables are not modelled.
- Streamlit re-runs the script on every interaction, and the session state persists between runs. In the model this is a `ChatSession` object that lives across calls of `PageRun`.

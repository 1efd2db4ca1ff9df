/** The chat questionnaire's turn handler as a function: a session state and
    one user input give the next session state and the external call the turn
    makes. The follow-up generator's reply and the scorer's assessment are
    inputs to the turn; each is read only by the turn that makes its call. */
module Conversation {
  import opened Text
  import opened Records
  import opened FollowUpQueue

  /** The preset open-ended questions, asked in this order. */
  const Questions: seq<string> := [
    "Can you describe a time you realized you were wrong about something important? How did you come to that realization, and what did you do afterward?",
    "What\U{2019}s a topic you used to feel very certain about, but now feel less certain\U{2014}or even uncertain\U{2014}about? What made you reconsider?",
    "When you\U{2019}re in a debate and you encounter evidence that contradicts your view, how do you usually respond?",
    "In areas you\U{2019}re most knowledgeable about, do you ever worry that you might still have blind spots? How do you watch out for them?",
    "How do you decide which sources of information you trust and which you don\U{2019}t?"
  ]

  const SpinnerText: string := "Generating follow-up questions..."
  const NoFollowUpsText: string := "No follow-up questions received."
  const FinalNoticeText: string := "All preset questions have been answered! Type **final** to receive your final assessment."
  const ReminderText: string := "Please type **final** to receive your final assessment."
  const AssessmentHeading: string := "## Final Assessment\n"

  /** The fixed texts the assistant posts. */
  datatype Wording = Wording(
    spinner: string,
    noFollowUps: string,
    allAnswered: string,
    reminder: string,
    heading: string)

  /** The page's own wording. */
  const AppWording: Wording := Wording(SpinnerText, NoFollowUpsText, FinalNoticeText, ReminderText, AssessmentHeading)

  datatype Phase = Preset | FollowUp | Final

  /** The external call a turn makes, with what it sends. The scorer gets the
      response list; the text it renders from it is ScorerPrompt.ResponsesText. */
  datatype Call =
    | NoCall
    | Generator(question: string, answer: string)
    | Scorer(responses: seq<Response>)

  /** The session record, one field per session key. */
  datatype State = State(
    phase: Phase,
    currentQuestionIndex: nat,
    responses: seq<Response>,
    currentResponse: Response,
    followUpQueue: seq<string>,
    followUpIndex: nat,
    followUpAnswers: seq<string>,
    chatHistory: seq<Message>)

  datatype Outcome = Outcome(state: State, call: Call)

  /** The session keys as first initialised. */
  function Initial(): State {
    State(Preset, 0, [], EmptyResponse, [], 0, [], [])
  }

  /** On a load with an empty transcript, the current preset question is posted. */
  function Greeted(questions: seq<string>, s: State): State {
    if s.chatHistory == [] && s.currentQuestionIndex < |questions| then
      s.(chatHistory := s.chatHistory + [Message(Assistant, questions[s.currentQuestionIndex])])
    else
      s
  }

  /** The input that asks for the assessment: "final" after stripping and lower-casing. */
  predicate IsFinalCommand(input: string) {
    Lower(Strip(input)) == "final"
  }

  /** What the assistant posts once question `i - 1` is finished. */
  function NextPrompt(questions: seq<string>, w: Wording, i: nat): string {
    if i < |questions| then questions[i] else w.allAnswered
  }

  /** The answer to preset question `currentQuestionIndex`: record it, ask the
      generator, queue its reply's lines and post the first one in place of the
      spinner message. */
  function PresetStep(questions: seq<string>, w: Wording, s: State, input: string, reply: string): Outcome
    requires s.currentQuestionIndex < |questions|
  {
    PresetWith(questions, w, s, input, ParseFollowUps(reply))
  }

  /** The preset step once the generator's reply has been parsed into `lines`. */
  function PresetWith(questions: seq<string>, w: Wording, s: State, input: string, lines: seq<string>): Outcome
    requires s.currentQuestionIndex < |questions|
  {
    var question := questions[s.currentQuestionIndex];
    var chat := s.chatHistory + [Message(User, input)];
    var spinnerIndex := |chat|;
    var withSpinner := chat + [Message(Assistant, w.spinner)];
    var shown := if lines != [] then lines[0] else w.noFollowUps;
    var next := s.(
      phase := FollowUp,
      currentResponse := s.currentResponse.(presetAnswer := Some(input), question := Some(question)),
      followUpQueue := lines,
      followUpIndex := if lines != [] then 1 else 0,
      followUpAnswers := [],
      chatHistory := withSpinner[spinnerIndex := withSpinner[spinnerIndex].(content := shown)]);
    Outcome(next, Generator(question, input))
  }

  /** An answer to a follow-up question: record it, then post the next queued
      question, or finish the preset question and move on. */
  function FollowUpStep(questions: seq<string>, w: Wording, s: State, input: string): State {
    var chat := s.chatHistory + [Message(User, input)];
    var answers := s.followUpAnswers + [input];
    if s.followUpIndex < |s.followUpQueue| then
      s.(chatHistory := chat + [Message(Assistant, s.followUpQueue[s.followUpIndex])],
         followUpAnswers := answers,
         followUpIndex := s.followUpIndex + 1)
    else
      var finished := s.currentResponse.(followupAnswers := Some(answers));
      var i := s.currentQuestionIndex + 1;
      State(if i < |questions| then Preset else Final, i, s.responses + [finished],
            EmptyResponse, [], 0, [], chat + [Message(Assistant, NextPrompt(questions, w, i))])
  }

  /** An input once every preset question is finished: the assessment when it
      is the final command, a reminder otherwise. */
  function FinalStep(w: Wording, s: State, input: string, assessment: string): Outcome {
    var chat := s.chatHistory + [Message(User, input)];
    if IsFinalCommand(input) then
      Outcome(s.(chatHistory := chat + [Message(Assistant, w.heading + assessment)]),
              Scorer(s.responses))
    else
      Outcome(s.(chatHistory := chat + [Message(Assistant, w.reminder)]), NoCall)
  }

  /** The preset question to answer exists. */
  predicate CanStep(questions: seq<string>, s: State) {
    s.phase == Preset ==> s.currentQuestionIndex < |questions|
  }

  /** One turn: an empty input does nothing; otherwise dispatch on the phase. */
  function Next(questions: seq<string>, w: Wording, s: State, input: string, reply: string, assessment: string): (o: Outcome)
    requires CanStep(questions, s)
    ensures CanStep(questions, o.state)
  {
    if input == [] then Outcome(s, NoCall)
    else
      match s.phase
      case Preset => PresetStep(questions, w, s, input, reply)
      case FollowUp => Outcome(FollowUpStep(questions, w, s, input), NoCall)
      case Final => FinalStep(w, s, input, assessment)
  }

  /** A finished response for preset question `question`. */
  predicate Finished(r: Response, question: string) {
    && r.question == Some(question)
    && r.presetAnswer.Some? && r.presetAnswer.value != []
    && r.followupAnswers.Some? && |r.followupAnswers.value| >= 1
  }

  /** What holds between turns of every session. */
  predicate Inv(questions: seq<string>, s: State) {
    && s.currentQuestionIndex <= |questions|
    && |s.responses| == s.currentQuestionIndex
    && (forall j :: 0 <= j < |s.responses| ==> Finished(s.responses[j], questions[j]))
    && (s.phase == Final <==> s.currentQuestionIndex == |questions|)
    && s.followUpIndex <= |s.followUpQueue|
    && WellFormedQueue(s.followUpQueue)
    && (s.phase != FollowUp ==>
          s.currentResponse == EmptyResponse && s.followUpQueue == [] &&
          s.followUpIndex == 0 && s.followUpAnswers == [])
    && (s.phase == FollowUp ==>
          && s.currentResponse.question == Some(questions[s.currentQuestionIndex])
          && s.currentResponse.presetAnswer.Some? && s.currentResponse.presetAnswer.value != []
          && s.currentResponse.followupAnswers.None?
          && (s.followUpQueue == [] ==> s.followUpIndex == 0 && s.followUpAnswers == [])
          && (s.followUpQueue != [] ==> 1 <= s.followUpIndex && |s.followUpAnswers| == s.followUpIndex - 1))
    && (s.chatHistory != [] ==> s.chatHistory[|s.chatHistory| - 1].role == Assistant)
  }

  lemma InitialInv(questions: seq<string>)
    requires questions != []
    ensures Inv(questions, Initial()) && Inv(questions, Greeted(questions, Initial()))
    ensures Greeted(questions, Initial()).chatHistory == [Message(Assistant, questions[0])]
  {
  }

  lemma GreetedInv(questions: seq<string>, s: State)
    requires Inv(questions, s)
    ensures Inv(questions, Greeted(questions, s))
  {
  }

  lemma PresetStepInv(questions: seq<string>, w: Wording, s: State, input: string, reply: string)
    requires Inv(questions, s) && s.phase == Preset && input != []
    ensures Inv(questions, PresetStep(questions, w, s, input, reply).state)
  {
    ParsedQueueWellFormed(reply);
    PresetPosted(questions, w, s, input, reply);
  }

  lemma FollowUpStepInv(questions: seq<string>, w: Wording, s: State, input: string)
    requires Inv(questions, s) && s.phase == FollowUp
    ensures Inv(questions, FollowUpStep(questions, w, s, input))
  {
  }

  lemma FinalStepInv(questions: seq<string>, w: Wording, s: State, input: string, assessment: string)
    requires Inv(questions, s) && s.phase == Final
    ensures Inv(questions, FinalStep(w, s, input, assessment).state)
  {
  }

  /** Every turn keeps the invariant. */
  lemma NextInv(questions: seq<string>, w: Wording, s: State, input: string, reply: string, assessment: string)
    requires Inv(questions, s)
    ensures Inv(questions, Next(questions, w, s, input, reply, assessment).state)
  {
    if input != [] {
      match s.phase
      case Preset => PresetStepInv(questions, w, s, input, reply);
      case FollowUp => FollowUpStepInv(questions, w, s, input);
      case Final => FinalStepInv(questions, w, s, input, assessment);
    }
  }

  /** An empty input changes nothing; any other input first appends exactly
      one user entry holding the input, then exactly one assistant entry. */
  lemma InputRecorded(questions: seq<string>, w: Wording, s: State, input: string, reply: string, assessment: string)
    requires Inv(questions, s)
    ensures var o := Next(questions, w, s, input, reply, assessment);
      && (input == [] ==> o == Outcome(s, NoCall))
      && (input != [] ==>
            && |o.state.chatHistory| == |s.chatHistory| + 2
            && o.state.chatHistory[..|s.chatHistory| + 1] == s.chatHistory + [Message(User, input)]
            && o.state.chatHistory[|s.chatHistory| + 1].role == Assistant)
  {
    if input != [] {
      var u := Message(User, input);
      match s.phase
      case Preset =>
        var q := ParseFollowUps(reply);
        PresetPosted(questions, w, s, input, reply);
        AppendTwo(s.chatHistory, u, Message(Assistant, if q != [] then q[0] else w.noFollowUps));
        PushTwo(s.chatHistory, u, Message(Assistant, if q != [] then q[0] else w.noFollowUps));
      case FollowUp =>
        if s.followUpIndex < |s.followUpQueue| {
          PushTwo(s.chatHistory, u, Message(Assistant, s.followUpQueue[s.followUpIndex]));
        } else {
          PushTwo(s.chatHistory, u, Message(Assistant, NextPrompt(questions, w, s.currentQuestionIndex + 1)));
        }
      case Final =>
        PushTwo(s.chatHistory, u, Message(Assistant, if IsFinalCommand(input) then w.heading + assessment else w.reminder));
    }
  }

  /** The answer to a preset question is stored with its question, the
      generator is asked about both, the queue is the parsed reply with its
      first entry posted (or the no-follow-up notice), and the session waits
      for follow-up answers. */
  lemma PresetAnswered(questions: seq<string>, w: Wording, s: State, input: string, reply: string, assessment: string)
    requires Inv(questions, s) && s.phase == Preset && input != []
    ensures var o, i, q := Next(questions, w, s, input, reply, assessment), s.currentQuestionIndex, ParseFollowUps(reply);
      && o.call == Generator(questions[i], input)
      && o.state.phase == FollowUp
      && o.state.currentQuestionIndex == i && o.state.responses == s.responses
      && o.state.currentResponse == Response(Some(questions[i]), Some(input), None)
      && o.state.followUpQueue == q && o.state.followUpAnswers == []
      && o.state.followUpIndex == (if q != [] then 1 else 0)
      && o.state.chatHistory == s.chatHistory + [Message(User, input), Message(Assistant, if q != [] then q[0] else w.noFollowUps)]
  {
    assert s.currentResponse == EmptyResponse;
    PresetPosted(questions, w, s, input, reply);
  }

  /** The spinner placed after the preset answer is overwritten in place, so
      the chat gains exactly the answer and what replaced the spinner. */
  lemma PresetPosted(questions: seq<string>, w: Wording, s: State, input: string, reply: string)
    requires s.currentQuestionIndex < |questions|
    ensures var q := ParseFollowUps(reply);
      PresetStep(questions, w, s, input, reply).state.chatHistory
        == s.chatHistory + [Message(User, input), Message(Assistant, if q != [] then q[0] else w.noFollowUps)]
  {
    var chat := s.chatHistory + [Message(User, input)];
    var q := ParseFollowUps(reply);
    var shown := Message(Assistant, if q != [] then q[0] else w.noFollowUps);
    var spinner := Message(Assistant, w.spinner);
    assert spinner.(content := shown.content) == shown;
    ReplaceLast(chat, spinner, shown);
    AppendTwo(s.chatHistory, Message(User, input), shown);
  }

  /** A follow-up answer is recorded; while queued questions remain the next
      one is posted and the session stays in the follow-up phase. */
  lemma FollowUpAnswered(questions: seq<string>, w: Wording, s: State, input: string, reply: string, assessment: string)
    requires Inv(questions, s) && s.phase == FollowUp && input != []
    requires s.followUpIndex < |s.followUpQueue|
    ensures Next(questions, w, s, input, reply, assessment).call == NoCall
    ensures var t := Next(questions, w, s, input, reply, assessment).state;
      && t == s.(followUpAnswers := t.followUpAnswers, followUpIndex := t.followUpIndex, chatHistory := t.chatHistory)
      && t.phase == FollowUp && t.followUpAnswers == s.followUpAnswers + [input]
      && t.followUpIndex == s.followUpIndex + 1
      && t.chatHistory == s.chatHistory + [Message(User, input), Message(Assistant, s.followUpQueue[s.followUpIndex])]
      && |t.followUpAnswers| == t.followUpIndex - 1
  {
  }

  /** The answer after the last queued question finishes the preset question:
      one response with its question, its preset answer and all follow-up
      answers (as many as queued questions, and one when none was queued) is
      appended, the per-question fields are cleared and the index moves on by one. */
  lemma QuestionFinished(questions: seq<string>, w: Wording, s: State, input: string, reply: string, assessment: string)
    requires Inv(questions, s) && s.phase == FollowUp && input != []
    requires s.followUpIndex == |s.followUpQueue|
    ensures Next(questions, w, s, input, reply, assessment).call == NoCall
    ensures var t, i := Next(questions, w, s, input, reply, assessment).state, s.currentQuestionIndex;
      && t.currentQuestionIndex == i + 1
      && |t.responses| == |s.responses| + 1 && t.responses[..|s.responses|] == s.responses
      && t.responses == s.responses + [s.currentResponse.(followupAnswers := Some(s.followUpAnswers + [input]))]
      && t.responses[i] == Response(Some(questions[i]), s.currentResponse.presetAnswer, Some(s.followUpAnswers + [input]))
      && |t.responses[i].followupAnswers.value| == (if s.followUpQueue == [] then 1 else |s.followUpQueue|)
      && t.currentResponse == EmptyResponse && t.followUpQueue == [] && t.followUpIndex == 0 && t.followUpAnswers == []
      && t.phase == (if i + 1 < |questions| then Preset else Final)
      && t.chatHistory == s.chatHistory + [Message(User, input), Message(Assistant, NextPrompt(questions, w, i + 1))]
      && NextPrompt(questions, w, i + 1) == (if i + 1 < |questions| then questions[i + 1] else w.allAnswered)
  {
  }

  /** Once every question is finished nothing but the transcript changes;
      the scorer is called on the responses exactly when the input
      is the final command, and its assessment is posted under the heading. */
  lemma FinalTurn(questions: seq<string>, w: Wording, s: State, input: string, reply: string, assessment: string)
    requires Inv(questions, s) && s.phase == Final && input != []
    ensures var o := Next(questions, w, s, input, reply, assessment);
      && o.state == s.(chatHistory := o.state.chatHistory)
      && o.call == (if IsFinalCommand(input) then Scorer(s.responses) else NoCall)
      && o.state.chatHistory == s.chatHistory + [Message(User, input),
           Message(Assistant, if IsFinalCommand(input) then w.heading + assessment else w.reminder)]
  {
    var m := Message(Assistant, if IsFinalCommand(input) then w.heading + assessment else w.reminder);
    assert Next(questions, w, s, input, reply, assessment) == FinalStep(w, s, input, assessment);
    AppendTwo(s.chatHistory, Message(User, input), m);
  }

  /** Each reply is read only by the turn whose call it answers: the generator's
      by a preset answer, the scorer's by a final command. */
  lemma RepliesReadOnlyByTheirCall(questions: seq<string>, w: Wording, s: State, input: string, r1: string, r2: string, a1: string, a2: string)
    requires Inv(questions, s)
    ensures var o1, o2 := Next(questions, w, s, input, r1, a1), Next(questions, w, s, input, r2, a2);
      && (!o1.call.Generator? ==> o1.state == Next(questions, w, s, input, r2, a1).state)
      && (!o1.call.Scorer? ==> o1.state == Next(questions, w, s, input, r1, a2).state)
      && o1.call == o2.call
  {
  }

  /** The final command is recognised with any surrounding whitespace and in
      any letter case. */
  lemma FinalCommandPadded(before: string, word: string, after: string)
    requires AllSpace(before) && AllSpace(after) && Lower(word) == "final"
    ensures IsFinalCommand(before + word + after)
  {
    var x := before + word + after;
    assert |word| == 5 && Lower(word)[0] == 'f' && Lower(word)[4] == 'l';
    assert LowerChar(word[0]) == 'f' && LowerChar(word[4]) == 'l';
    assert x[..|before|] == before && x[|before| + |word|..] == after && x[|before|..|before| + |word|] == word;
    StripExactly(x, |before|, |before| + |word|);
  }

  /** Only such inputs are recognised: whitespace, a five-letter word that
      lower-cases to "final", whitespace. */
  lemma FinalCommandShape(input: string)
    requires IsFinalCommand(input)
    ensures var i, w := StripOffset(input), Strip(input);
      && |w| == 5 && Lower(w) == "final"
      && input == input[..i] + w + input[i + 5..]
      && AllSpace(input[..i]) && AllSpace(input[i + 5..])
  {
    StripInfix(input);
  }

  /** A word lower-cases to "final" exactly when each letter is the lower- or
      upper-case letter of "final". */
  lemma FinalWordCases(w: string)
    ensures Lower(w) == "final" <==> |w| == 5 && forall k :: 0 <= k < 5 ==> w[k] == "final"[k] || w[k] == "FINAL"[k]
  {
    if |w| == 5 && forall k :: 0 <= k < 5 ==> w[k] == "final"[k] || w[k] == "FINAL"[k] {
      assert forall k :: 0 <= k < 5 ==> Lower(w)[k] == "final"[k];
    }
    if Lower(w) == "final" {
      forall k | 0 <= k < 5 ensures w[k] == "final"[k] || w[k] == "FINAL"[k] {
        assert LowerChar(w[k]) == "final"[k];
      }
    }
  }

  // Runs of several turns.

  /** One page run: what the user typed, and what the generator and the scorer
      answer if this turn calls them. */
  datatype Turn = Turn(input: string, reply: string, assessment: string)

  function Inputs(turns: seq<Turn>): (inputs: seq<string>)
    ensures |inputs| == |turns|
  {
    if turns == [] then [] else [turns[0].input] + Inputs(turns[1..])
  }

  /** No turn has an empty input (an empty input leaves the session as it is). */
  predicate AllAnswered(turns: seq<Turn>) {
    turns == [] || (turns[0].input != [] && AllAnswered(turns[1..]))
  }

  lemma {:induction false} InputsPrefix(turns: seq<Turn>, m: nat)
    requires m <= |turns|
    ensures Inputs(turns[..m]) == Inputs(turns)[..m]
    ensures AllAnswered(turns) ==> AllAnswered(turns[..m])
  {
    if m > 0 {
      InputsPrefix(turns[1..], m - 1);
      assert turns[..m][1..] == turns[1..][..m - 1];
      assert Inputs(turns)[..m] == [turns[0].input] + Inputs(turns[1..])[..m - 1];
    }
  }

  /** The state after the turns, one after another. */
  function Replay(questions: seq<string>, w: Wording, s: State, turns: seq<Turn>): (t: State)
    requires CanStep(questions, s)
    ensures CanStep(questions, t)
    decreases |turns|
  {
    if turns == [] then s
    else Replay(questions, w, Next(questions, w, s, turns[0].input, turns[0].reply, turns[0].assessment).state, turns[1..])
  }

  /** Every run of turns keeps the invariant. */
  lemma {:induction false} ReplayInv(questions: seq<string>, w: Wording, s: State, turns: seq<Turn>)
    requires Inv(questions, s)
    ensures Inv(questions, Replay(questions, w, s, turns))
    decreases |turns|
  {
    if turns != [] {
      NextInv(questions, w, s, turns[0].input, turns[0].reply, turns[0].assessment);
      ReplayInv(questions, w, Next(questions, w, s, turns[0].input, turns[0].reply, turns[0].assessment).state, turns[1..]);
    }
  }

  /** The transcript of user answers each followed by the assistant's next question. */
  function Dialogue(answers: seq<string>, questions: seq<string>): seq<Message>
    requires |answers| == |questions|
  {
    if answers == [] then []
    else [Message(User, answers[0]), Message(Assistant, questions[0])] + Dialogue(answers[1..], questions[1..])
  }

  /** The follow-up answers, one step each. */
  function AnswerFollowUps(questions: seq<string>, w: Wording, s: State, answers: seq<string>): State
    decreases |answers|
  {
    if answers == [] then s else AnswerFollowUps(questions, w, FollowUpStep(questions, w, s, answers[0]), answers[1..])
  }

  /** In the follow-up phase, the session takes exactly one answer per question
      still queued plus one, posting the queued questions in order, and then
      finishes the preset question with all follow-up answers. */
  lemma {:induction false} FollowUpRun(questions: seq<string>, w: Wording, s: State, answers: seq<string>)
    requires s.phase == FollowUp && s.followUpIndex <= |s.followUpQueue|
    requires |answers| == |s.followUpQueue| - s.followUpIndex + 1
    ensures var t, n, i := AnswerFollowUps(questions, w, s, answers), |answers|, s.currentQuestionIndex;
      && t.currentQuestionIndex == i + 1
      && t.responses == s.responses + [s.currentResponse.(followupAnswers := Some(s.followUpAnswers + answers))]
      && t.phase == (if i + 1 < |questions| then Preset else Final)
      && t.chatHistory == s.chatHistory + Dialogue(answers[..n - 1], s.followUpQueue[s.followUpIndex..])
                          + [Message(User, answers[n - 1]), Message(Assistant, NextPrompt(questions, w, i + 1))]
    decreases |answers|
  {
    var x := answers[0];
    var s1 := FollowUpStep(questions, w, s, x);
    assert answers[..0] == [];
    if |answers| == 1 {
      assert answers[1..] == [] && answers == [x];
    } else {
      FollowUpRun(questions, w, s1, answers[1..]);
      var n := |answers|;
      assert s1.followUpAnswers + answers[1..] == s.followUpAnswers + answers;
      assert answers[..n - 1] == [x] + answers[1..][..n - 2];
      assert s.followUpQueue[s.followUpIndex..] == [s.followUpQueue[s.followUpIndex]] + s1.followUpQueue[s1.followUpIndex..];
    }
  }

  /** Before the last of those answers, the session stays in the follow-up
      phase, one queued question further on per answer. */
  lemma {:induction false} FollowUpPending(questions: seq<string>, w: Wording, s: State, answers: seq<string>)
    requires s.phase == FollowUp && s.followUpIndex <= |s.followUpQueue|
    requires |answers| <= |s.followUpQueue| - s.followUpIndex
    ensures AnswerFollowUps(questions, w, s, answers).phase == FollowUp
    ensures AnswerFollowUps(questions, w, s, answers).followUpIndex == s.followUpIndex + |answers|
    decreases |answers|
  {
    if answers != [] {
      FollowUpPending(questions, w, FollowUpStep(questions, w, s, answers[0]), answers[1..]);
    }
  }

  /** While follow-up answers are due, the turns are follow-up steps. */
  lemma {:induction false} ReplayFollowUps(questions: seq<string>, w: Wording, s: State, turns: seq<Turn>)
    requires s.phase == FollowUp && s.followUpIndex <= |s.followUpQueue|
    requires AllAnswered(turns)
    requires |turns| <= |s.followUpQueue| - s.followUpIndex + 1
    ensures Replay(questions, w, s, turns) == AnswerFollowUps(questions, w, s, Inputs(turns))
    decreases |turns|
  {
    if turns != [] {
      var x := turns[0];
      var s1 := Next(questions, w, s, x.input, x.reply, x.assessment).state;
      assert s1 == FollowUpStep(questions, w, s, x.input);
      assert Inputs(turns)[1..] == Inputs(turns[1..]);
      if |turns| > 1 {
        ReplayFollowUps(questions, w, s1, turns[1..]);
      }
    }
  }

  /** FollowUpRun, stated for the turns themselves. */
  lemma FollowUpTurns(questions: seq<string>, w: Wording, s: State, turns: seq<Turn>)
    requires s.phase == FollowUp && s.followUpIndex <= |s.followUpQueue|
    requires AllAnswered(turns)
    requires |turns| == |s.followUpQueue| - s.followUpIndex + 1
    ensures Replay(questions, w, s, turns).currentQuestionIndex == s.currentQuestionIndex + 1
    ensures Replay(questions, w, s, turns).responses
      == s.responses + [s.currentResponse.(followupAnswers := Some(s.followUpAnswers + Inputs(turns)))]
    ensures Replay(questions, w, s, turns).phase == (if s.currentQuestionIndex + 1 < |questions| then Preset else Final)
    ensures Replay(questions, w, s, turns).chatHistory
      == s.chatHistory + Dialogue(Inputs(turns)[..|Inputs(turns)| - 1], s.followUpQueue[s.followUpIndex..])
         + [Message(User, Inputs(turns)[|Inputs(turns)| - 1]), Message(Assistant, NextPrompt(questions, w, s.currentQuestionIndex + 1))]
  {
    ReplayFollowUps(questions, w, s, turns);
    FollowUpRun(questions, w, s, Inputs(turns));
  }

  /** FollowUpPending, stated for the turns themselves. */
  lemma FollowUpTurnsPending(questions: seq<string>, w: Wording, s: State, turns: seq<Turn>)
    requires s.phase == FollowUp && s.followUpIndex <= |s.followUpQueue|
    requires AllAnswered(turns)
    requires |turns| <= |s.followUpQueue| - s.followUpIndex
    ensures Replay(questions, w, s, turns).phase == FollowUp
    ensures Replay(questions, w, s, turns).followUpIndex == s.followUpIndex + |turns|
  {
    ReplayFollowUps(questions, w, s, turns);
    FollowUpPending(questions, w, s, Inputs(turns));
  }

  lemma EmptyConcat<T>(a: seq<T>)
    ensures [] + a == a
  {
  }

  lemma ConcatAssoc<T>(a: seq<T>, b: seq<T>, c: seq<T>)
    ensures a + b + c == a + (b + c)
  {
  }

  lemma AppendTwo<T>(c: seq<T>, x: T, y: T)
    ensures c + [x] + [y] == c + [x, y]
  {
  }

  lemma PushTwo<T>(c: seq<T>, x: T, y: T)
    ensures |c + [x] + [y]| == |c| + 2
    ensures (c + [x] + [y])[..|c| + 1] == c + [x] && (c + [x] + [y])[|c| + 1] == y
  {
  }

  lemma ReplaceLast<T>(c: seq<T>, x: T, y: T)
    ensures (c + [x])[|c| := y] == c + [y]
  {
  }

  /** One more exchange at the front of a dialogue. */
  lemma DialogueCons(input: string, answers: seq<string>, q: seq<string>)
    requires q != [] && |answers| == |q| - 1
    ensures Dialogue([input] + answers, q) == [Message(User, input), Message(Assistant, q[0])] + Dialogue(answers, q[1..])
  {
    assert ([input] + answers)[1..] == answers;
  }

  /** The transcript of a whole preset question, apart from any turn: the
      answer `input` and what replaced the spinner, the exchanges over the
      rest of the queue `q` (or the `notice` that none was queued), then the
      last answer and the `closing` message. */
  lemma QuestionChat(c: seq<Message>, input: string, q: seq<string>, answers: seq<string>, notice: string, closing: Message)
    requires |answers| == (if q == [] then 1 else |q|)
    ensures q != [] ==>
      c + [Message(User, input), Message(Assistant, q[0])] + Dialogue(answers[..|answers| - 1], q[1..])
        + [Message(User, answers[|answers| - 1]), closing]
      == c + Dialogue([input] + answers[..|answers| - 1], q) + [Message(User, answers[|answers| - 1]), closing]
    ensures q == [] ==>
      c + [Message(User, input), Message(Assistant, notice)] + Dialogue(answers[..|answers| - 1], q)
        + [Message(User, answers[|answers| - 1]), closing]
      == c + [Message(User, input), Message(Assistant, notice), Message(User, answers[0]), closing]
  {
    var n := |answers|;
    if q != [] {
      DialogueCons(input, answers[..n - 1], q);
      ConcatAssoc(c, [Message(User, input), Message(Assistant, q[0])], Dialogue(answers[..n - 1], q[1..]));
    } else {
      assert Dialogue(answers[..n - 1], q) == [];
    }
  }

  /** A whole preset question: its answer, then exactly as many follow-up
      answers as the generator's reply has non-blank lines (one when it has
      none). Every queued question is posted once, in order, each answered
      before the next; the question ends with one response holding the preset
      answer and the follow-up answers. */
  lemma QuestionCycle(questions: seq<string>, w: Wording, s: State, turns: seq<Turn>)
    requires Inv(questions, s) && s.phase == Preset
    requires AllAnswered(turns)
    requires turns != [] && var q := ParseFollowUps(turns[0].reply);
      |turns| == 1 + (if q == [] then 1 else |q|)
    ensures var t, i, q := Replay(questions, w, s, turns), s.currentQuestionIndex, ParseFollowUps(turns[0].reply);
      var answers := Inputs(turns[1..]);
      var n := |answers|;
      && t.currentQuestionIndex == i + 1
      && t.responses == s.responses + [Response(Some(questions[i]), Some(turns[0].input), Some(answers))]
      && t.phase == (if i + 1 < |questions| then Preset else Final)
      && (q != [] ==>
            t.chatHistory == s.chatHistory + Dialogue([turns[0].input] + answers[..n - 1], q)
                             + [Message(User, answers[n - 1]), Message(Assistant, NextPrompt(questions, w, i + 1))])
      && (q == [] ==>
            t.chatHistory == s.chatHistory + [Message(User, turns[0].input), Message(Assistant, w.noFollowUps),
                                              Message(User, answers[0]), Message(Assistant, NextPrompt(questions, w, i + 1))])
  {
    var x, q := turns[0], ParseFollowUps(turns[0].reply);
    var s1 := Next(questions, w, s, x.input, x.reply, x.assessment).state;
    PresetAnswered(questions, w, s, x.input, x.reply, x.assessment);
    FollowUpTurns(questions, w, s1, turns[1..]);
    EmptyConcat(Inputs(turns[1..]));
    assert s1.followUpQueue[s1.followUpIndex..] == if q != [] then q[1..] else q;
    QuestionChat(s.chatHistory, x.input, q, Inputs(turns[1..]), w.noFollowUps, Message(Assistant, NextPrompt(questions, w, s.currentQuestionIndex + 1)));
  }

  /** After a preset answer, one answer is due per queued question still to
      post, plus one. */
  lemma PresetQueued(questions: seq<string>, w: Wording, s: State, x: Turn)
    requires s.phase == Preset && s.currentQuestionIndex < |questions| && x.input != []
    ensures Next(questions, w, s, x.input, x.reply, x.assessment).state.phase == FollowUp
    ensures Next(questions, w, s, x.input, x.reply, x.assessment).state.followUpIndex
      <= |Next(questions, w, s, x.input, x.reply, x.assessment).state.followUpQueue|
    ensures |Next(questions, w, s, x.input, x.reply, x.assessment).state.followUpQueue|
      - Next(questions, w, s, x.input, x.reply, x.assessment).state.followUpIndex + 1
      == (if ParseFollowUps(x.reply) == [] then 1 else |ParseFollowUps(x.reply)|)
  {
    assert Next(questions, w, s, x.input, x.reply, x.assessment) == PresetStep(questions, w, s, x.input, x.reply);
  }

  /** ... and the question does not end before its last follow-up answer. */
  lemma QuestionPending(questions: seq<string>, w: Wording, s: State, turns: seq<Turn>, m: nat)
    requires s.phase == Preset && s.currentQuestionIndex < |questions|
    requires AllAnswered(turns)
    requires turns != [] && var q := ParseFollowUps(turns[0].reply);
      |turns| == 1 + (if q == [] then 1 else |q|)
    requires 1 <= m < |turns|
    ensures Replay(questions, w, s, turns[..m]).phase == FollowUp
  {
    var run := turns[..m];
    InputsPrefix(turns, m);
    assert run[0] == turns[0];
    PresetQueued(questions, w, s, run[0]);
    FollowUpTurnsPending(questions, w, Next(questions, w, s, run[0].input, run[0].reply, run[0].assessment).state, run[1..]);
  }

  /** Nothing leaves the final phase: whatever the user types, the phase, the
      responses and the question index stay as they are. */
  lemma {:induction false} FinalPersists(questions: seq<string>, w: Wording, s: State, turns: seq<Turn>)
    requires Inv(questions, s) && s.phase == Final
    ensures var t := Replay(questions, w, s, turns);
      t.phase == Final && t.responses == s.responses && t.currentQuestionIndex == s.currentQuestionIndex
    decreases |turns|
  {
    if turns != [] {
      NextInv(questions, w, s, turns[0].input, turns[0].reply, turns[0].assessment);
      FinalPersists(questions, w, Next(questions, w, s, turns[0].input, turns[0].reply, turns[0].assessment).state, turns[1..]);
    }
  }

  /** There is no guard against a second assessment: every final command,
      however many came before, calls the scorer again on the same responses. */
  lemma ScorerCalledAgain(questions: seq<string>, w: Wording, s: State, before: seq<Turn>, input: string, reply: string, assessment: string)
    requires Inv(questions, s) && s.phase == Final && IsFinalCommand(input)
    ensures Next(questions, w, Replay(questions, w, s, before), input, reply, assessment).call == Scorer(s.responses)
  {
    FinalPersists(questions, w, s, before);
  }
}

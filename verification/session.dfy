/** The page's session state as an object whose fields the turn handler
    updates in place, one field per `st.session_state` key. Each method is
    proved to leave exactly the state that Conversation's functions give. */
module Session {
  import opened Records
  import opened FollowUpQueue
  import opened Conversation

  class ChatSession {
    /** The preset questions and the fixed texts the page posts. */
    const questions: seq<string>
    const wording: Wording

    var phase: Phase
    var currentQuestionIndex: nat
    var responses: seq<Response>
    var currentResponse: Response
    var followUpQueue: seq<string>
    var followUpIndex: nat
    var followUpAnswers: seq<string>
    var chatHistory: seq<Message>

    /** The fields as one session record. */
    function Snapshot(): State
      reads this
    {
      State(phase, currentQuestionIndex, responses, currentResponse,
            followUpQueue, followUpIndex, followUpAnswers, chatHistory)
    }

    ghost predicate Valid()
      reads this
    {
      Inv(questions, Snapshot())
    }

    /** Every key set to its first value, as on the first page run. */
    constructor ()
      ensures questions == Questions && wording == AppWording
      ensures Snapshot() == Initial() && Valid()
    {
      questions := Questions;
      wording := AppWording;
      chatHistory := [];
      currentQuestionIndex := 0;
      phase := Preset;
      responses := [];
      currentResponse := EmptyResponse;
      followUpQueue := [];
      followUpIndex := 0;
      followUpAnswers := [];
    }

    /** Posts the current preset question when the transcript is empty. */
    method Greet()
      modifies this
      ensures Snapshot() == Greeted(questions, old(Snapshot()))
      ensures old(Valid()) ==> Valid()
    {
      if chatHistory == [] && currentQuestionIndex < |questions| {
        var firstQuestion := questions[currentQuestionIndex];
        chatHistory := chatHistory + [Message(Assistant, firstQuestion)];
      }
      if old(Valid()) {
        GreetedInv(questions, old(Snapshot()));
      }
    }

    /** One user input: dispatch on the phase. `generatorReply` is what the
        follow-up generator answers if it is called, `assessment` what the
        scorer answers if it is called; `call` says which was called. */
    method HandleInput(userInput: string, generatorReply: string, assessment: string) returns (call: Call)
      requires CanStep(questions, Snapshot())
      modifies this
      ensures Outcome(Snapshot(), call) == Next(questions, wording, old(Snapshot()), userInput, generatorReply, assessment)
      ensures old(Valid()) ==> Valid()
    {
      call := NoCall;
      if userInput != [] {
        match phase
        case Preset =>
          call := AnswerPreset(userInput, generatorReply);
        case FollowUp =>
          AnswerFollowUp(userInput);
        case Final =>
          call := AnswerFinal(userInput, assessment);
      }
      if old(Valid()) {
        NextInv(questions, wording, old(Snapshot()), userInput, generatorReply, assessment);
      }
    }

    /** A page run: the greeting check, then the input. */
    method PageRun(userInput: string, generatorReply: string, assessment: string) returns (call: Call)
      requires CanStep(questions, Snapshot())
      modifies this
      ensures Outcome(Snapshot(), call)
        == Next(questions, wording, Greeted(questions, old(Snapshot())), userInput, generatorReply, assessment)
      ensures old(Valid()) ==> Valid()
    {
      Greet();
      call := HandleInput(userInput, generatorReply, assessment);
    }

    /** The preset phase: record the answer, ask the generator, queue the
        non-blank lines of its reply and overwrite the spinner entry. */
    method AnswerPreset(userInput: string, generatorReply: string) returns (call: Call)
      requires phase == Preset && currentQuestionIndex < |questions| && userInput != []
      modifies this
      ensures Outcome(Snapshot(), call) == PresetStep(questions, wording, old(Snapshot()), userInput, generatorReply)
      ensures old(Valid()) ==> Valid()
    {
      var lines := ParseFollowUps(generatorReply);
      call := ApplyPreset(userInput, lines);
      if old(Valid()) {
        PresetStepInv(questions, wording, old(Snapshot()), userInput, generatorReply);
      }
    }

    /** The preset phase once the generator's reply is parsed into `lines`. */
    method ApplyPreset(userInput: string, lines: seq<string>) returns (call: Call)
      requires phase == Preset && currentQuestionIndex < |questions|
      modifies this
      ensures Outcome(Snapshot(), call) == PresetWith(questions, wording, old(Snapshot()), userInput, lines)
    {
      chatHistory := chatHistory + [Message(User, userInput)];
      currentResponse := currentResponse.(presetAnswer := Some(userInput));
      currentResponse := currentResponse.(question := Some(questions[currentQuestionIndex]));
      var spinnerIndex := |chatHistory|;
      chatHistory := chatHistory + [Message(Assistant, wording.spinner)];
      call := Generator(questions[currentQuestionIndex], userInput);
      followUpQueue := lines;
      followUpIndex := 0;
      followUpAnswers := [];
      if lines != [] {
        chatHistory := chatHistory[spinnerIndex := chatHistory[spinnerIndex].(content := lines[0])];
        followUpIndex := 1;
      } else {
        chatHistory := chatHistory[spinnerIndex := chatHistory[spinnerIndex].(content := wording.noFollowUps)];
      }
      phase := FollowUp;
    }

    /** The follow-up phase: record the answer, then post the next queued
        question or finish the preset question. */
    method AnswerFollowUp(userInput: string)
      requires phase == FollowUp && userInput != []
      modifies this
      ensures Snapshot() == FollowUpStep(questions, wording, old(Snapshot()), userInput)
      ensures old(Valid()) ==> Valid()
    {
      RecordFollowUp(userInput);
      if old(Valid()) {
        FollowUpStepInv(questions, wording, old(Snapshot()), userInput);
      }
    }

    /** The field updates of the follow-up phase. */
    method RecordFollowUp(userInput: string)
      requires phase == FollowUp
      modifies this
      ensures Snapshot() == FollowUpStep(questions, wording, old(Snapshot()), userInput)
    {
      chatHistory := chatHistory + [Message(User, userInput)];
      followUpAnswers := followUpAnswers + [userInput];
      if followUpIndex < |followUpQueue| {
        var nextQuestion := followUpQueue[followUpIndex];
        chatHistory := chatHistory + [Message(Assistant, nextQuestion)];
        followUpIndex := followUpIndex + 1;
      } else {
        currentResponse := currentResponse.(followupAnswers := Some(followUpAnswers));
        responses := responses + [currentResponse];
        currentResponse := EmptyResponse;
        followUpQueue := [];
        followUpIndex := 0;
        followUpAnswers := [];
        currentQuestionIndex := currentQuestionIndex + 1;
        if currentQuestionIndex < |questions| {
          var nextPreset := questions[currentQuestionIndex];
          chatHistory := chatHistory + [Message(Assistant, nextPreset)];
          phase := Preset;
        } else {
          chatHistory := chatHistory + [Message(Assistant, wording.allAnswered)];
          phase := Final;
        }
      }
    }

    /** The final phase: the assessment for the final command, a reminder
        for anything else. */
    method AnswerFinal(userInput: string, assessment: string) returns (call: Call)
      requires phase == Final && userInput != []
      modifies this
      ensures Outcome(Snapshot(), call) == FinalStep(wording, old(Snapshot()), userInput, assessment)
      ensures old(Valid()) ==> Valid()
    {
      chatHistory := chatHistory + [Message(User, userInput)];
      if IsFinalCommand(userInput) {
        call := Scorer(responses);
        chatHistory := chatHistory + [Message(Assistant, wording.heading + assessment)];
      } else {
        call := NoCall;
        chatHistory := chatHistory + [Message(Assistant, wording.reminder)];
      }
      if old(Valid()) {
        FinalStepInv(questions, wording, old(Snapshot()), userInput, assessment);
      }
    }
  }
}

/** The part of the scorer prompt built from the response list: one block per
    response, numbered from 1, each with its preset answer, its numbered
    follow-up answers and a closing blank line. The fixed instruction text
    that precedes it carries no behaviour and is not modelled. */
module ScorerPrompt {
  import opened Text
  import opened Records

  /** The inner loop's text for one response: `"Follow-up i Answer: a\n"` per
      answer, accumulated answer by answer with `i` counted from 1. */
  function FollowUpText(answers: seq<string>): string {
    if answers == [] then []
    else
      FollowUpText(answers[..|answers| - 1])
      + "Follow-up " + NatToString(|answers|) + " Answer: " + answers[|answers| - 1] + "\n"
  }

  /** One pass of the outer loop: the text added for response `r` as question
      number `k`. An absent `preset_answer` renders as empty; an absent
      `followup_answers` adds no follow-up lines. */
  function BlockText(k: nat, r: Response): string {
    "Question " + NatToString(k) + ":\n"
    + "Preset Answer: " + r.presetAnswer.GetOr("") + "\n"
    + (match r.followupAnswers
       case Some(answers) => FollowUpText(answers)
       case None => "")
    + "\n"
  }

  /** The outer loop's text for the response list, accumulated response by
      response with the question number counted from 1. */
  function ResponsesText(responses: seq<Response>): string {
    if responses == [] then []
    else ResponsesText(responses[..|responses| - 1]) + BlockText(|responses|, responses[|responses| - 1])
  }

  // Reference definition: the same text as a list of lines.

  /** Each line followed by a line feed. */
  function Lines(ls: seq<string>): string {
    if ls == [] then [] else ls[0] + "\n" + Lines(ls[1..])
  }

  function FollowUpLines(answers: seq<string>, i: nat): seq<string> {
    if answers == [] then []
    else ["Follow-up " + NatToString(i) + " Answer: " + answers[0]] + FollowUpLines(answers[1..], i + 1)
  }

  /** The lines of the block for question number `k`. */
  function BlockLines(k: nat, r: Response): seq<string> {
    ["Question " + NatToString(k) + ":", "Preset Answer: " + r.presetAnswer.GetOr("")]
    + (match r.followupAnswers
       case Some(answers) => FollowUpLines(answers, 1)
       case None => [])
    + [""]
  }

  /** The blocks of `responses` in list order, numbered from `k`. */
  function BodyLines(responses: seq<Response>, k: nat): seq<string> {
    if responses == [] then []
    else BlockLines(k, responses[0]) + BodyLines(responses[1..], k + 1)
  }

  /** No answer holds a line feed. */
  predicate SingleLineAnswers(responses: seq<Response>) {
    forall j :: 0 <= j < |responses| ==>
      '\n' !in responses[j].presetAnswer.GetOr("") &&
      (responses[j].followupAnswers.Some? ==>
        forall i :: 0 <= i < |responses[j].followupAnswers.value| ==> '\n' !in responses[j].followupAnswers.value[i])
  }

  lemma {:induction false} LinesAppend(a: seq<string>, b: seq<string>)
    ensures Lines(a + b) == Lines(a) + Lines(b)
  {
    if a == [] {
      assert a + b == b;
    } else {
      assert (a + b)[0] == a[0] && (a + b)[1..] == a[1..] + b;
      LinesAppend(a[1..], b);
    }
  }

  /** Terminating every line with a line feed is joining the lines and one
      final empty piece with line feeds. */
  lemma {:induction false} LinesJoin(ls: seq<string>)
    ensures Lines(ls) == Join(ls + [[]], '\n')
  {
    if ls != [] {
      LinesJoin(ls[1..]);
      assert (ls + [[]])[1..] == ls[1..] + [[]];
    }
  }

  lemma {:induction false} FollowUpLinesSnoc(answers: seq<string>, a: string, i: nat)
    ensures FollowUpLines(answers + [a], i)
         == FollowUpLines(answers, i) + ["Follow-up " + NatToString(i + |answers|) + " Answer: " + a]
  {
    if answers == [] {
      assert answers + [a] == [a];
    } else {
      assert (answers + [a])[1..] == answers[1..] + [a];
      FollowUpLinesSnoc(answers[1..], a, i + 1);
    }
  }

  lemma {:induction false} BodyLinesSnoc(responses: seq<Response>, r: Response, k: nat)
    ensures BodyLines(responses + [r], k) == BodyLines(responses, k) + BlockLines(k + |responses|, r)
  {
    if responses == [] {
      assert responses + [r] == [r];
    } else {
      assert (responses + [r])[1..] == responses[1..] + [r];
      BodyLinesSnoc(responses[1..], r, k + 1);
    }
  }

  /** The inner loop emits the follow-up lines numbered from 1, in order. */
  lemma {:induction false} FollowUpTextLines(answers: seq<string>)
    ensures FollowUpText(answers) == Lines(FollowUpLines(answers, 1))
  {
    if answers != [] {
      var init, a := answers[..|answers| - 1], answers[|answers| - 1];
      FollowUpTextLines(init);
      assert answers == init + [a];
      FollowUpLinesSnoc(init, a, 1);
      LinesAppend(FollowUpLines(init, 1), ["Follow-up " + NatToString(|answers|) + " Answer: " + a]);
    }
  }

  lemma LinesOfBlock(q: string, p: string, fu: seq<string>)
    ensures Lines([q, p] + fu + [""]) == q + "\n" + p + "\n" + Lines(fu) + "\n"
  {
    var blank: string := "";
    assert [blank][1..] == [] && [p][1..] == [] && [q, p][1..] == [p];
    assert Lines([blank]) == "\n";
    assert Lines([p]) == p + "\n";
    assert Lines([q, p]) == q + "\n" + (p + "\n");
    LinesAppend([q, p], fu);
    LinesAppend([q, p] + fu, [blank]);
  }

  /** One pass of the outer loop emits the lines of one block. */
  lemma BlockTextLines(k: nat, r: Response)
    ensures BlockText(k, r) == Lines(BlockLines(k, r))
  {
    var q, p := "Question " + NatToString(k) + ":", "Preset Answer: " + r.presetAnswer.GetOr("");
    match r.followupAnswers {
      case Some(answers) =>
        FollowUpTextLines(answers);
        LinesOfBlock(q, p, FollowUpLines(answers, 1));
      case None =>
        LinesOfBlock(q, p, []);
    }
  }

  /** The outer loop emits block `k` for the `k`-th response, in list order. */
  lemma {:induction false} ResponsesTextLines(responses: seq<Response>)
    ensures ResponsesText(responses) == Lines(BodyLines(responses, 1))
  {
    if responses != [] {
      var init, r := responses[..|responses| - 1], responses[|responses| - 1];
      ResponsesTextLines(init);
      assert responses == init + [r];
      BodyLinesSnoc(init, r, 1);
      LinesAppend(BodyLines(init, 1), BlockLines(|responses|, r));
      BlockTextLines(|responses|, r);
    }
  }

  lemma {:induction false} FollowUpLinesSingle(answers: seq<string>, i: nat)
    requires forall j :: 0 <= j < |answers| ==> '\n' !in answers[j]
    ensures forall j :: 0 <= j < |FollowUpLines(answers, i)| ==> '\n' !in FollowUpLines(answers, i)[j]
  {
    if answers != [] {
      FollowUpLinesSingle(answers[1..], i + 1);
    }
  }

  lemma {:induction false} BodyLinesSingle(responses: seq<Response>, k: nat)
    requires SingleLineAnswers(responses)
    ensures forall j :: 0 <= j < |BodyLines(responses, k)| ==> '\n' !in BodyLines(responses, k)[j]
  {
    if responses != [] {
      var r := responses[0];
      if r.followupAnswers.Some? {
        FollowUpLinesSingle(r.followupAnswers.value, 1);
      }
      BodyLinesSingle(responses[1..], k + 1);
    }
  }

  /** When no answer holds a line feed, the rendered responses read back, line
      by line, as the blocks of BodyLines followed by the empty piece after the
      last line feed. */
  lemma ResponsesTextSplit(responses: seq<Response>)
    requires SingleLineAnswers(responses)
    ensures Split(ResponsesText(responses), '\n') == BodyLines(responses, 1) + [""]
  {
    ResponsesTextLines(responses);
    LinesJoin(BodyLines(responses, 1));
    BodyLinesSingle(responses, 1);
    SplitJoin(BodyLines(responses, 1) + [""], '\n');
  }
}

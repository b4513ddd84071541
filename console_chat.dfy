/**
 * The console loop of the sales bot (`chat`): read a line, stop on `exit` or
 * `quit` in any letter case, otherwise classify the mood, wrap the input in
 * the prompt for that mood, send it with the current context token and keep
 * the context the endpoint returns. Any failure of the call ends the loop.
 */
module ConsoleChat {
  import opened Sentiment
  import opened Generation

  const EnthusiasticPrefix: string := "Respond with enthusiasm. Customer is happy: "
  const EmpatheticPrefix: string := "Respond with empathy and offer support. Customer seems unhappy: "
  const CharismaticPrefix: string := "Maintain a charismatic and engaging tone: "

  /** ASCII lower-casing of one character. */
  function LowerChar(c: char): (lowered: char)
  {
    if 'A' <= c <= 'Z' then (c as int - 'A' as int + 'a' as int) as char else c
  }

  /** `str.lower()`, restricted to ASCII letters. */
  function ToLower(s: string): (r: string)
    ensures |r| == |s|
    ensures forall i :: 0 <= i < |s| ==> r[i] == LowerChar(s[i])
  {
    if s == [] then [] else [LowerChar(s[0])] + ToLower(s[1..])
  }

  /** `input_text.lower() in ['exit', 'quit']` */
  predicate IsExitCommand(input: string)
  {
    var lowered := ToLower(input);
    lowered == "exit" || lowered == "quit"
  }

  /** The exit words are recognised in any letter case, but nothing else is trimmed. */
  lemma ExitCommandExamples()
    ensures IsExitCommand("exit") && IsExitCommand("EXIT") && IsExitCommand("Quit")
    ensures !IsExitCommand("exit ") && !IsExitCommand("exits") && !IsExitCommand("")
  {
    assert ToLower("EXIT") == "exit";
    assert ToLower("Quit") == "quit";
  }

  /** Lower-casing is idempotent, so lower-casing the input first changes nothing. */
  lemma ExitCommandIgnoresCase(input: string)
    ensures IsExitCommand(ToLower(input)) == IsExitCommand(input)
  {
  }

  /** The prompt sent for a mood state: a fixed prefix per state, then the input unchanged. */
  function PromptFor(state: string, input: string): (prompt: string)
    ensures |prompt| > |input| && prompt[|prompt| - |input|..] == input
    ensures prompt == EnthusiasticPrefix + input <==> state == PositiveLabel
    ensures prompt == EmpatheticPrefix + input <==> state == NegativeLabel
    ensures prompt == CharismaticPrefix + input <==> state != PositiveLabel && state != NegativeLabel
  {
    if state == PositiveLabel then EnthusiasticPrefix + input
    else if state == NegativeLabel then EmpatheticPrefix + input
    else CharismaticPrefix + input
  }

  /** The prompt built for an input line, in terms of the keywords it contains. */
  lemma PromptFollowsKeywords(input: string)
    ensures var prompt := PromptFor(InferPsychologicalState(input), input);
      && (prompt == EnthusiasticPrefix + input <==> HasPositive(input))
      && (prompt == EmpatheticPrefix + input <==> !HasPositive(input) && HasNegative(input))
      && (prompt == CharismaticPrefix + input <==> !HasPositive(input) && !HasNegative(input))
  {
    InferMatchesKeywords(input);
  }

  /** One line typed by the user, and what the endpoint would answer to it. */
  datatype Turn = Turn(input: string, reply: Reply)

  /** What is sent to `generate`: the prompt and the context token. */
  datatype Request = Request(prompt: string, context: seq<int>)

  /**
   * How the loop ends: an exit command, a failed call (the cause is the
   * outcome of `generate`), or end of input (`input()` raises and the
   * program ends).
   */
  datatype Stop = Exited | Aborted(cause: GenResult) | EndOfInput

  /** The calls made, the replies printed, the final context and how the loop ended. */
  datatype Transcript = Transcript(requests: seq<Request>, outputs: seq<string>, context: seq<int>, stop: Stop)

  /** Calls already made and replies already printed in front of the rest of a run. */
  function Extend(requests: seq<Request>, outputs: seq<string>, rest: Transcript): (t: Transcript)
  {
    Transcript(requests + rest.requests, outputs + rest.outputs, rest.context, rest.stop)
  }

  /** The prompt sent for one input line. */
  function PromptOf(input: string): (prompt: string)
  {
    PromptFor(InferPsychologicalState(input), input)
  }

  /**
   * What one iteration of the loop does with a turn, before the context is
   * known: stop on an exit command, or send the prompt and get an answer.
   */
  datatype Step = Quit | Call(prompt: string, answer: GenResult)

  function StepOf(turn: Turn): (step: Step)
  {
    if IsExitCommand(turn.input) then Quit else Call(PromptOf(turn.input), Answer(turn.reply))
  }

  function StepsOf(turns: seq<Turn>): (steps: seq<Step>)
    ensures |steps| == |turns|
  {
    seq(|turns|, i requires 0 <= i < |turns| => StepOf(turns[i]))
  }

  /** The loop over the turns' steps, threading the context from call to call. */
  function Run(steps: seq<Step>, context: seq<int>): (t: Transcript)
  {
    if steps == [] then Transcript([], [], context, EndOfInput)
    else match steps[0]
      case Quit => Transcript([], [], context, Exited)
      case Call(prompt, answer) =>
        if answer.Ok? then Extend([Request(prompt, context)], [answer.text], Run(steps[1..], answer.context))
        else Transcript([Request(prompt, context)], [], context, Aborted(answer))
  }

  /** A turn that makes a call is not an exit command, and calls with its own prompt and answer. */
  lemma StepOfCall(turn: Turn)
    requires StepOf(turn).Call?
    ensures !IsExitCommand(turn.input)
    ensures StepOf(turn).prompt == PromptOf(turn.input) && StepOf(turn).answer == Answer(turn.reply)
  {
  }

  /** The whole conversation, starting from `context`. */
  function RunChat(turns: seq<Turn>, context: seq<int>): (t: Transcript)
  {
    Run(StepsOf(turns), context)
  }

  /** Calls made, printed replies and turns, counted. */
  lemma {:induction false} RunLengths(steps: seq<Step>, context: seq<int>)
    ensures var t := Run(steps, context);
      |t.outputs| <= |t.requests| <= |steps| && |t.requests| <= |t.outputs| + 1
  {
    if steps != [] && steps[0].Call? && steps[0].answer.Ok? {
      RunLengths(steps[1..], steps[0].answer.context);
    }
  }

  /**
   * Call `j` of a run is made for step `j`, which is a call and not a quit,
   * and sends that step's prompt; its context is the initial one for the
   * first call and the one returned by the previous call otherwise.
   */
  lemma {:induction false} RunRequest(steps: seq<Step>, context: seq<int>, j: int)
    requires 0 <= j < |Run(steps, context).requests|
    ensures j < |steps| && steps[j].Call?
    ensures Run(steps, context).requests[j].prompt == steps[j].prompt
    ensures j == 0 ==> Run(steps, context).requests[j].context == context
    ensures j > 0 ==> steps[j - 1].Call? && steps[j - 1].answer.Ok? &&
                      Run(steps, context).requests[j].context == steps[j - 1].answer.context
  {
    var t := Run(steps, context);
    if j > 0 {
      var answer := steps[0].answer;
      var rest := Run(steps[1..], answer.context);
      assert t.requests == [t.requests[0]] + rest.requests;
      RunRequest(steps[1..], answer.context, j - 1);
      assert steps[j] == steps[1..][j - 1];
      if j > 1 {
        assert steps[j - 1] == steps[1..][j - 2];
      }
    }
  }

  /** Printed reply `j` is the text of step `j`'s successful answer. */
  lemma {:induction false} RunOutput(steps: seq<Step>, context: seq<int>, j: int)
    requires 0 <= j < |Run(steps, context).outputs|
    ensures j < |steps| && steps[j].Call? && steps[j].answer.Ok?
    ensures Run(steps, context).outputs[j] == steps[j].answer.text
  {
    if j > 0 {
      var answer := steps[0].answer;
      RunOutput(steps[1..], answer.context, j - 1);
      assert steps[j] == steps[1..][j - 1];
    }
  }

  /**
   * How a run ended determines where it stopped: a quit stops right before
   * that step's call, a failed call stops right after it, and end of input
   * comes after every step succeeded. The final context is the one returned
   * by the last successful call, or the initial one.
   */
  lemma {:induction false} RunStops(steps: seq<Step>, context: seq<int>)
    ensures var t := Run(steps, context);
      && (t.stop.Exited? ==>
            |t.outputs| == |t.requests| < |steps| && steps[|t.requests|].Quit?)
      && (t.stop.Aborted? ==>
            && |t.requests| == |t.outputs| + 1 <= |steps|
            && steps[|t.outputs|].Call?
            && t.stop.cause == steps[|t.outputs|].answer
            && !t.stop.cause.Ok?)
      && (t.stop.EndOfInput? ==> |t.outputs| == |t.requests| == |steps|)
      && (|t.outputs| == 0 ==> t.context == context)
      && (|t.outputs| > 0 ==>
            && |t.outputs| <= |steps|
            && steps[|t.outputs| - 1].Call?
            && steps[|t.outputs| - 1].answer.Ok?
            && t.context == steps[|t.outputs| - 1].answer.context)
  {
    if steps != [] && steps[0].Call? && steps[0].answer.Ok? {
      var t := Run(steps, context);
      var rest := Run(steps[1..], steps[0].answer.context);
      RunStops(steps[1..], steps[0].answer.context);
      assert |t.outputs| == |rest.outputs| + 1;
      assert |rest.outputs| > 0 ==> steps[|t.outputs| - 1] == steps[1..][|rest.outputs| - 1];
      assert t.stop.Exited? ==> steps[|t.requests|] == steps[1..][|rest.requests|];
      assert t.stop.Aborted? ==> steps[|t.outputs|] == steps[1..][|rest.outputs|];
    }
  }

  /** After at least one answered call, a run holds the context that the last answered call returned. */
  lemma {:induction false} RunFinalContext(steps: seq<Step>, context: seq<int>)
    requires |Run(steps, context).outputs| > 0
    ensures var t := Run(steps, context);
      && |t.outputs| <= |steps|
      && steps[|t.outputs| - 1].Call?
      && steps[|t.outputs| - 1].answer.Ok?
      && t.context == steps[|t.outputs| - 1].answer.context
  {
    var answer := steps[0].answer;
    var t := Run(steps, context);
    var rest := Run(steps[1..], answer.context);
    assert t.outputs == [answer.text] + rest.outputs;
    if |rest.outputs| > 0 {
      RunFinalContext(steps[1..], answer.context);
      assert steps[|t.outputs| - 1] == steps[1..][|rest.outputs| - 1];
    }
  }

  /**
   * In terms of the turns: call `j` is made for turn `j`, which is not an
   * exit command, with the prompt built from that turn's input; it carries
   * the initial context if it is the first call and otherwise the context
   * returned by the previous turn's successful call.
   */
  lemma RunChatRequest(turns: seq<Turn>, context: seq<int>, j: int)
    requires 0 <= j < |RunChat(turns, context).requests|
    ensures j < |turns| && !IsExitCommand(turns[j].input)
    ensures RunChat(turns, context).requests[j].prompt == PromptOf(turns[j].input)
    ensures j == 0 ==> RunChat(turns, context).requests[j].context == context
    ensures j > 0 ==> Answer(turns[j - 1].reply).Ok?
    ensures j > 0 ==> RunChat(turns, context).requests[j].context == Answer(turns[j - 1].reply).context
  {
    var steps := StepsOf(turns);
    RunRequest(steps, context, j);
    assert steps[j] == StepOf(turns[j]);
    if j > 0 {
      assert steps[j - 1] == StepOf(turns[j - 1]);
    }
  }

  /** In terms of the turns: printed reply `j` is the text of turn `j`'s successful call. */
  lemma RunChatOutput(turns: seq<Turn>, context: seq<int>, j: int)
    requires 0 <= j < |RunChat(turns, context).outputs|
    ensures j < |turns| && !IsExitCommand(turns[j].input) && Answer(turns[j].reply).Ok?
    ensures RunChat(turns, context).outputs[j] == Answer(turns[j].reply).text
  {
    var steps := StepsOf(turns);
    RunOutput(steps, context, j);
    assert steps[j] == StepOf(turns[j]);
  }

  /**
   * In terms of the turns: an exit command ends the conversation before
   * that turn's prompt is built or sent, a failed call ends it right after
   * that call, and end of input comes after every turn succeeded.
   */
  lemma RunChatStops(turns: seq<Turn>, context: seq<int>)
    ensures var t := RunChat(turns, context);
      && (t.stop.Exited? ==>
            |t.outputs| == |t.requests| < |turns| && IsExitCommand(turns[|t.requests|].input))
      && (t.stop.Aborted? ==>
            && |t.requests| == |t.outputs| + 1 <= |turns|
            && t.stop.cause == Answer(turns[|t.outputs|].reply)
            && !t.stop.cause.Ok?)
      && (t.stop.EndOfInput? ==> |t.outputs| == |t.requests| == |turns|)
      && (|t.outputs| == 0 ==> t.context == context)
  {
    var steps := StepsOf(turns);
    var t := Run(steps, context);
    RunStops(steps, context);
    if t.stop.Exited? {
      assert steps[|t.requests|] == StepOf(turns[|t.requests|]);
    } else if t.stop.Aborted? {
      assert steps[|t.outputs|] == StepOf(turns[|t.outputs|]);
    }
  }

  /** The context left after the run is the one returned by the last successful call, `k`. */
  lemma RunChatFinalContext(turns: seq<Turn>, context: seq<int>, k: int)
    requires 0 <= k && k == |RunChat(turns, context).outputs| - 1
    ensures k < |turns| && Answer(turns[k].reply).Ok?
    ensures RunChat(turns, context).context == Answer(turns[k].reply).context
  {
    var steps := StepsOf(turns);
    RunChatOutput(turns, context, k);
    RunFinalContext(steps, context);
    assert steps[k] == StepOf(turns[k]);
    StepOfCall(turns[k]);
  }

  /** A quit step ends a run in which every earlier call succeeded. */
  lemma {:induction false} RunQuitsAt(steps: seq<Step>, context: seq<int>, k: int)
    requires 0 <= k < |steps| && steps[k].Quit?
    requires forall j :: 0 <= j < k ==> steps[j].Call? && steps[j].answer.Ok?
    ensures Run(steps, context).stop == Exited
    ensures |Run(steps, context).requests| == k
  {
    if k > 0 {
      var rest := steps[1..];
      assert forall j :: 0 <= j < k - 1 ==> rest[j] == steps[j + 1];
      RunQuitsAt(rest, steps[0].answer.context, k - 1);
    }
  }

  /** The first exit command ends the conversation, provided every earlier call succeeded. */
  lemma ExitStopsTheLoop(turns: seq<Turn>, context: seq<int>, k: int)
    requires 0 <= k < |turns| && IsExitCommand(turns[k].input)
    requires forall j :: 0 <= j < k ==> !IsExitCommand(turns[j].input) && Answer(turns[j].reply).Ok?
    ensures RunChat(turns, context).stop == Exited
    ensures |RunChat(turns, context).requests| == k
  {
    var steps := StepsOf(turns);
    forall j | 0 <= j < k
      ensures steps[j].Call? && steps[j].answer.Ok?
    {
      assert steps[j] == StepOf(turns[j]);
    }
    assert steps[k] == StepOf(turns[k]);
    RunQuitsAt(steps, context, k);
  }

  /** A successful call contributes its request and its reply in front of the rest of the run. */
  lemma RunAfterCall(steps: seq<Step>, context: seq<int>, requests: seq<Request>, outputs: seq<string>)
    requires steps != [] && steps[0].Call? && steps[0].answer.Ok?
    ensures Extend(requests, outputs, Run(steps, context))
         == Extend(requests + [Request(steps[0].prompt, context)], outputs + [steps[0].answer.text],
                   Run(steps[1..], steps[0].answer.context))
  {
  }

  /**
   * `chat`: the `while True` loop; `context` plays the part of the global
   * that each successful call reassigns.
   */
  method Chat(turns: seq<Turn>, initialContext: seq<int>) returns (t: Transcript)
    ensures t == RunChat(turns, initialContext)
  {
    ghost var steps := StepsOf(turns);
    var context := initialContext;
    var requests: seq<Request> := [];
    var outputs: seq<string> := [];
    var i := 0;
    while true
      invariant 0 <= i <= |turns|
      invariant RunChat(turns, initialContext) == Extend(requests, outputs, Run(steps[i..], context))
      decreases |turns| - i
    {
      if i == |turns| {
        return Transcript(requests, outputs, context, EndOfInput);
      }
      var inputText := turns[i].input;
      if IsExitCommand(inputText) {
        assert steps[i..][0] == steps[i] == StepOf(turns[i]);
        return Transcript(requests, outputs, context, Exited);
      }
      var psychologicalState := InferPsychologicalState(inputText);
      var prompt := PromptFor(psychologicalState, inputText);
      var answer := Generate(turns[i].reply);
      assert steps[i..][0] == steps[i] == StepOf(turns[i]) == Call(prompt, answer);
      if !answer.Ok? {
        return Transcript(requests + [Request(prompt, context)], outputs, context, Aborted(answer));
      }
      RunAfterCall(steps[i..], context, requests, outputs);
      assert steps[i..][1..] == steps[i + 1..];
      requests := requests + [Request(prompt, context)];
      outputs := outputs + [answer.text];
      context := answer.context;
      i := i + 1;
    }
  }
}

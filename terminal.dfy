/** The terminal chat loop (afrikaans.py, main): read a line, skip it when blank,
    stop on an exit keyword, otherwise append it as a user turn, send the system
    prompt and the whole conversation to the model, and append the reply when the
    call succeeds. The conversation lives in memory for the session only. */
module Terminal {
  import opened Chat
  import opened Text

  /** The fixed Afrikaans persona sent as the first message of every request. */
  const SystemPrompt: string :=
    "Jy is 'n vriendelike en behulpsame AI-assistent wat in Afrikaans kommunikeer.\n\n"
    + "Re\U{EB}ls:\n"
    + "- Antwoord ALTYD in Afrikaans, tensy die gebruiker spesifiek vra vir 'n ander taal.\n"
    + "- Gebruik natuurlike, alledaagse Afrikaans.\n"
    + "- Wees vriendelik en geduldig.\n"
    + "- As jy nie seker is van 'n Afrikaanse woord nie, gebruik die mees algemene term.\n"

  const ExitWords: seq<string> := ["stop", "exit", "quit"]

  /** What one prompt yields: a typed line, paired with what the model would answer
      if that line leads to a call, or a Ctrl-C (KeyboardInterrupt) raised by
      `input`. End of input (EOFError) is running out of lines. Both end the loop
      the same way, in the one `except` branch. */
  datatype Input = Line(text: string, answer: Outcome) | Interrupt

  /** Why the loop ended. */
  datatype Ending = ExitKeyword | Interrupted | EndOfInput

  function SystemMessage(): Message
  {
    Message("system", SystemPrompt, None)
  }

  /** The messages of one request: the system prompt, then the conversation. */
  function Payload(conversation: seq<Message>): seq<Message>
  {
    [SystemMessage()] + conversation
  }

  /** One pass of the loop body: the conversation afterwards, the request sent
      (if any) and, when the loop stops, why. */
  datatype StepResult = StepResult(conversation: seq<Message>, request: Option<seq<Message>>,
                                   ending: Option<Ending>)

  function Step(conversation: seq<Message>, input: Input): StepResult
  {
    match input
    case Interrupt => StepResult(conversation, None, Some(Interrupted))
    case Line(text, answer) =>
      var userInput := Strip(text);
      if userInput == [] then StepResult(conversation, None, None)
      else if Lower(userInput) in ExitWords then StepResult(conversation, None, Some(ExitKeyword))
      else
        var withUser := conversation + [Message("user", userInput, None)];
        match answer
        case Success(content) =>
          StepResult(withUser + [Message("assistant", Strip(content), None)], Some(Payload(withUser)), None)
        case Failure(_) =>
          StepResult(withUser, Some(Payload(withUser)), None)
  }

  /** A whole session: the final conversation, every request sent, in order, and
      why it ended. */
  datatype SessionResult = SessionResult(conversation: seq<Message>, requests: seq<seq<Message>>,
                                         ending: Ending)

  /** The loop run over `inputs` from a conversation and the requests sent so far. */
  function Session(conversation: seq<Message>, sent: seq<seq<Message>>, inputs: seq<Input>): SessionResult
    decreases |inputs|
  {
    if inputs == [] then SessionResult(conversation, sent, EndOfInput)
    else
      var step := Step(conversation, inputs[0]);
      if step.ending.Some? then SessionResult(conversation, sent, step.ending.value)
      else
        Session(step.conversation,
                if step.request.Some? then sent + [step.request.value] else sent,
                inputs[1..])
  }

  /** main's loop, from an empty conversation. */
  method RunSession(inputs: seq<Input>)
    returns (conversation: seq<Message>, requests: seq<seq<Message>>, ending: Ending)
    ensures Session([], [], inputs) == SessionResult(conversation, requests, ending)
  {
    conversation, requests, ending := [], [], EndOfInput;
    var i := 0;
    while i < |inputs|
      invariant 0 <= i <= |inputs|
      invariant Session([], [], inputs) == Session(conversation, requests, inputs[i..])
    {
      assert inputs[i..][1..] == inputs[i + 1..];
      var input := inputs[i];
      ghost var step := Step(conversation, input);
      i := i + 1;
      if input.Interrupt? {
        ending := Interrupted;
        break;
      }
      var userInput := Strip(input.text);
      if userInput == [] {
        assert step == StepResult(conversation, None, None);
        SessionGoesOn(conversation, requests, inputs[i - 1..]);
        continue;
      }
      if Lower(userInput) in ExitWords {
        ending := ExitKeyword;
        break;
      }
      ghost var old_conversation, old_requests := conversation, requests;
      conversation := conversation + [Message("user", userInput, None)];
      requests := requests + [Payload(conversation)];
      if input.answer.Success? {
        conversation := conversation + [Message("assistant", Strip(input.answer.content), None)];
      }
      assert step == StepResult(conversation, Some(requests[|requests| - 1]), None);
      SessionGoesOn(old_conversation, old_requests, inputs[i - 1..]);
    }
  }

  /** Unfolding one pass of the loop that does not stop it. */
  lemma SessionGoesOn(conversation: seq<Message>, sent: seq<seq<Message>>, inputs: seq<Input>)
    requires inputs != [] && Step(conversation, inputs[0]).ending.None?
    ensures var step := Step(conversation, inputs[0]);
            Session(conversation, sent, inputs)
            == Session(step.conversation,
                       if step.request.Some? then sent + [step.request.value] else sent,
                       inputs[1..])
  {
  }

  /** Blank input changes nothing, sends nothing, and the loop goes on. */
  lemma BlankLineSkipped(conversation: seq<Message>, text: string, answer: Outcome)
    requires forall k :: 0 <= k < |text| ==> IsSpace(text[k])
    ensures Step(conversation, Line(text, answer)) == StepResult(conversation, None, None)
  {
    StripEmptyIffBlank(text);
  }

  /** An exit keyword, in any letter case and with surrounding whitespace, ends the
      loop with nothing sent and nothing changed. */
  lemma ExitKeywordStops(conversation: seq<Message>, text: string, answer: Outcome)
    requires Lower(Strip(text)) in ExitWords
    ensures Step(conversation, Line(text, answer)) == StepResult(conversation, None, Some(ExitKeyword))
  {
  }

  /** Any other line is appended as a user turn before the call, and the request
      is the system prompt followed by the whole conversation, user turn included:
      one message more than the conversation at the time of the call. Success
      appends exactly the stripped reply; failure leaves the user turn dangling. */
  lemma OtherLineCalls(conversation: seq<Message>, text: string, answer: Outcome)
    requires Strip(text) != [] && Lower(Strip(text)) !in ExitWords
    ensures var step := Step(conversation, Line(text, answer));
            var withUser := conversation + [Message("user", Strip(text), None)];
            && step.ending == None
            && step.request == Some([SystemMessage()] + withUser)
            && |step.request.value| == 1 + |withUser|
            && step.conversation == if answer.Success?
                                    then withUser + [Message("assistant", Strip(answer.content), None)]
                                    else withUser
  {
  }

  /** Once the loop stops, nothing after the stopping input is read. */
  lemma StopIgnoresRest(conversation: seq<Message>, sent: seq<seq<Message>>, input: Input,
                        rest: seq<Input>)
    requires Step(conversation, input).ending.Some?
    ensures Session(conversation, sent, [input] + rest)
            == SessionResult(conversation, sent, Step(conversation, input).ending.value)
  {
  }

  /** A step only ever appends to the conversation. */
  lemma StepAppends(conversation: seq<Message>, input: Input)
    ensures var after := Step(conversation, input).conversation;
            |conversation| <= |after| && after[..|conversation|] == conversation
  {
  }

  /** The session's conversation is append-only: it ends with what it started with
      as a prefix, and the requests already sent stay at the front of the list. */
  lemma {:induction false} SessionAppendOnly(conversation: seq<Message>, sent: seq<seq<Message>>,
                                             inputs: seq<Input>)
    ensures var r := Session(conversation, sent, inputs);
            && |conversation| <= |r.conversation| && r.conversation[..|conversation|] == conversation
            && |sent| <= |r.requests| && r.requests[..|sent|] == sent
    decreases |inputs|
  {
    if inputs != [] {
      var step := Step(conversation, inputs[0]);
      if step.ending.None? {
        var sent' := if step.request.Some? then sent + [step.request.value] else sent;
        StepAppends(conversation, inputs[0]);
        SessionAppendOnly(step.conversation, sent', inputs[1..]);
        var r := Session(step.conversation, sent', inputs[1..]);
        assert r.conversation[..|conversation|] == r.conversation[..|step.conversation|][..|conversation|];
        assert r.requests[..|sent|] == r.requests[..|sent'|][..|sent|];
      }
    }
  }

  /** A request is the system prompt followed by a prefix of `conversation` that
      ends with a user turn. */
  predicate SeesHistory(request: seq<Message>, conversation: seq<Message>)
  {
    && |request| >= 2 && request[0] == SystemMessage() && request[|request| - 1].role == "user"
    && |request| - 1 <= |conversation| && request[1..] == conversation[..|request| - 1]
  }

  /** The request a step sends sees the conversation that step leaves behind. */
  lemma StepRequestSeesHistory(conversation: seq<Message>, input: Input)
    ensures var step := Step(conversation, input);
            step.request.Some? ==> SeesHistory(step.request.value, step.conversation)
  {
    if input.Line? && Strip(input.text) != [] && Lower(Strip(input.text)) !in ExitWords {
      OtherLineCalls(conversation, input.text, input.answer);
      var step := Step(conversation, input);
      var withUser := conversation + [Message("user", Strip(input.text), None)];
      assert step.request.value[1..] == withUser;
      assert step.conversation[..|withUser|] == withUser;
    }
  }

  /** A request that sees a prefix of a conversation sees every extension of it. */
  lemma SeesHistoryExtends(request: seq<Message>, c: seq<Message>, d: seq<Message>)
    requires SeesHistory(request, c)
    requires |c| <= |d| && d[..|c|] == c
    ensures SeesHistory(request, d)
  {
    assert d[..|request| - 1] == d[..|c|][..|request| - 1];
  }

  /** Every request sent during a session is the system prompt followed by a
      prefix of the final conversation that ends with a user turn: what the model
      saw is never rewritten afterwards. */
  lemma {:induction false} RequestsSeeFinalHistory(conversation: seq<Message>, sent: seq<seq<Message>>,
                                                   inputs: seq<Input>)
    ensures var r := Session(conversation, sent, inputs);
            forall j :: |sent| <= j < |r.requests| ==> SeesHistory(r.requests[j], r.conversation)
    decreases |inputs|
  {
    if inputs != [] {
      var step := Step(conversation, inputs[0]);
      if step.ending.None? {
        var sent' := if step.request.Some? then sent + [step.request.value] else sent;
        RequestsSeeFinalHistory(step.conversation, sent', inputs[1..]);
        if step.request.Some? {
          SessionAppendOnly(step.conversation, sent', inputs[1..]);
          var r := Session(step.conversation, sent', inputs[1..]);
          var p := step.request.value;
          assert r.requests[|sent|] == r.requests[..|sent'|][|sent|] == p;
          StepRequestSeesHistory(conversation, inputs[0]);
          SeesHistoryExtends(p, step.conversation, r.conversation);
        }
      }
    }
  }
}

/** The conversation protocol: what every LLM call is sent, in every interleaving. */
module AgentProtocol {
  import opened AgentTypes
  import opened AgentRun
  import opened Traces
  import opened Wrappers

  /** The answers are to exactly these tools, in this order. */
  ghost predicate Answers(answers: seq<Answer>, tools: seq<Tool>) {
    |answers| == |tools| && forall j | 0 <= j < |tools| :: answers[j].toolUseId == tools[j].id
  }

  /** Message `i` is the one the protocol wants there: first the prompt, then assistant and
      user in turns, and each user message answers every tool of the message before it. */
  ghost predicate Fits(messages: seq<Message>, i: nat)
    requires i < |messages|
  {
    if i == 0 then messages[i].UserPrompt?
    else if i % 2 == 1 then messages[i].Assistant?
    else
      && messages[i].ToolResults? && messages[i - 1].Assistant?
      && messages[i].answers != [] && Answers(messages[i].answers, Tools(messages[i - 1].content))
  }

  /** A history an LLM call may be sent: it starts and ends with the user. */
  ghost predicate WellFormed(messages: seq<Message>) {
    |messages| % 2 == 1 && forall i | 0 <= i < |messages| :: Fits(messages, i)
  }

  /** A well-formed history and then the assistant's reply. */
  ghost predicate AwaitsAnswers(messages: seq<Message>, r: Response) {
    messages != [] && messages[|messages| - 1] == Assistant(r.content) && WellFormed(messages[..|messages| - 1])
  }

  /** The first `k` tools of the response are answered. */
  ghost predicate AnsweredSoFar(answers: seq<Answer>, r: Response, k: nat) {
    k <= |Tools(r.content)| && Answers(answers, Tools(r.content)[..k])
  }

  ghost predicate MessagesFit(s: State) {
    match s.pc
    case Suspended(_) => WellFormed(s.messages)
    case Calling(_) => WellFormed(s.messages)
    case Backoff(_) => WellFormed(s.messages)
    case Persisting(r) => AwaitsAnswers(s.messages, r)
    case Asking(r, k, answers, _, _) =>
      AwaitsAnswers(s.messages, r) && k < |Tools(r.content)| && AnsweredSoFar(answers, r, k)
    case Executing(r, k, answers) =>
      AwaitsAnswers(s.messages, r) && k < |Tools(r.content)| && AnsweredSoFar(answers, r, k)
    case _ => true
  }

  ghost predicate CallsFit(log: seq<Entry>) {
    forall e | 0 <= e < |log| && log[e].Called? :: WellFormed(log[e].messages)
  }

  ghost predicate Inv(s: State) {
    MessagesFit(s) && CallsFit(s.log)
  }

  lemma LoopTopKeeps(s: State)
    requires CallsFit(s.log) && (s.interrupted.None? ==> WellFormed(s.messages))
    ensures Inv(LoopTop(s))
  {
  }

  lemma PushAnswers(messages: seq<Message>, r: Response, answers: seq<Answer>)
    requires AwaitsAnswers(messages, r) && Tools(r.content) != [] && Answers(answers, Tools(r.content))
    ensures WellFormed(messages + [ToolResults(answers)])
  {
    var before := messages[..|messages| - 1];
    var after := messages + [ToolResults(answers)];
    forall i | 0 <= i < |after| ensures Fits(after, i) {
      if i < |before| {
        assert Fits(before, i);
        assert after[i] == before[i] && (i > 0 ==> after[i - 1] == before[i - 1]);
      }
    }
  }

  lemma EndToolsKeeps(s: State, r: Response, answers: seq<Answer>)
    requires CallsFit(s.log) && AwaitsAnswers(s.messages, r) && Tools(r.content) != []
    requires s.interrupted == Some(Hard) || Answers(answers, Tools(r.content))
    ensures Inv(EndTools(s, answers))
  {
    if s.interrupted != Some(Hard) {
      PushAnswers(s.messages, r, answers);
    }
    var told := if answers == [] then s else s.(messages := s.messages + [ToolResults(answers)]);
    LoopTopKeeps(Note(told, IterationEnd(s.iteration)));
  }

  lemma NextToolKeeps(s: State, r: Response, k: nat, answers: seq<Answer>)
    requires CallsFit(s.log) && AwaitsAnswers(s.messages, r) && Tools(r.content) != []
    requires AnsweredSoFar(answers, r, k)
    ensures Inv(NextTool(s, r, k, answers))
  {
    var tools := Tools(r.content);
    if k == |tools| || s.interrupted == Some(Hard) {
      assert k == |tools| ==> tools[..k] == tools;
      EndToolsKeeps(s, r, answers);
    } else {
      TakeToolKeeps(s, r, k, answers);
    }
  }

  lemma TakeToolKeeps(s: State, r: Response, k: nat, answers: seq<Answer>)
    requires CallsFit(s.log) && AwaitsAnswers(s.messages, r) && AnsweredSoFar(answers, r, k)
    requires k < |Tools(r.content)| && s.interrupted != Some(Hard)
    ensures Inv(NextTool(s, r, k, answers))
  {
  }

  lemma ToolOverKeeps(s: State, r: Response, k: nat, answers: seq<Answer>, isError: bool)
    requires CallsFit(s.log) && AwaitsAnswers(s.messages, r)
    requires k < |Tools(r.content)| && AnsweredSoFar(answers, r, k)
    ensures Inv(ToolOver(s, r, k, answers, isError))
  {
    var id := Tools(r.content)[k].id;
    NextToolKeeps(Note(s, ToolResult(id, isError)), r, k + 1, answers + [Answer(id, isError)]);
  }

  lemma CallReturnsKeeps(s: State, r: Response)
    requires CallsFit(s.log) && WellFormed(s.messages)
    ensures Inv(CallReturns(s, r))
  {
    assert (s.messages + [Assistant(r.content)])[..|s.messages|] == s.messages;
  }

  lemma OutsideKeeps(s: State, i: Input)
    requires Inv(s)
    ensures Inv(Outside(s, i))
  {
  }

  lemma ResumptionKeeps(s: State, i: Input)
    requires Inv(s) && Enabled(s, i)
    ensures Inv(Resumption(s, i))
  {
    match i
    case PromptBuilt => LoopTopKeeps(s.(messages := [UserPrompt]));
    case Reply(r) => CallReturnsKeeps(s, r);
    case Persisted =>
      if !s.pc.response.endTurn && Tools(s.pc.response.content) != [] {
        NextToolKeeps(s, s.pc.response, 0, []);
      }
    case Continue =>
      if s.pc.reply.value == Reject {
        ToolOverKeeps(s, s.pc.response, s.pc.k, s.pc.answers, true);
      }
    case ToolDone(isError, secret) =>
      var noted := if secret then Note(s, ErrorNote("Secret detected")) else s;
      ToolOverKeeps(noted, s.pc.response, s.pc.k, s.pc.answers, isError);
    case _ =>
  }

  lemma StepKeeps(s: State, i: Input)
    requires Inv(s)
    ensures Inv(Step(s, i))
  {
    if Enabled(s, i) {
      ResumptionKeeps(s, i);
    } else {
      OutsideKeeps(s, i);
    }
  }

  lemma Always(limits: Limits, present: bool, inputs: seq<Input>, n: nat)
    requires n <= |inputs|
    ensures Inv(Run(limits, present, inputs, n))
  {
    forall s, i | Inv(s) ensures Inv(Step(s, i)) {
      StepKeeps(s, i);
    }
    AlongKeeps(Step, Init(limits, present), inputs, n, s => Inv(s));
  }

  /** In every interleaving of stops, interrupts, pauses, answers, time-outs and clean-up,
      every LLM call of a run is sent a history in which the roles alternate, starting and
      ending with the user, and every tool use is answered, in order, in the next message. */
  lemma {:induction false} EveryCallIsWellFormed(limits: Limits, present: bool, inputs: seq<Input>, e: nat)
    requires var log := Run(limits, present, inputs, |inputs|).log; e < |log| && log[e].Called?
    ensures WellFormed(Run(limits, present, inputs, |inputs|).log[e].messages)
  {
    Always(limits, present, inputs, |inputs|);
  }
}

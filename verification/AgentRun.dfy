/** The agent run (src/agent/agent-executor.ts) as a transition system. The program counter
    names the await the executor is suspended at; one input either resumes it, and then it
    runs to its next await, or is something that happens outside while it waits. */
module AgentRun {
  import opened AgentTypes
  import opened Traces
  import opened Wrappers

  // ----- Conversation -----

  /** Outcome of the patterns that the approval check applies to a tool's input. */
  datatype ToolInput = NoInput | Input(publishes: bool, sensitivePath: bool, operation: string)

  datatype Tool = Tool(id: string, name: string, input: ToolInput)

  datatype Block = Text(text: string) | ToolUse(tool: Tool)

  datatype Response = Response(content: seq<Block>, endTurn: bool, inputTokens: nat, outputTokens: nat)

  datatype Answer = Answer(toolUseId: string, isError: bool)

  datatype Message = UserPrompt | Assistant(content: seq<Block>) | ToolResults(answers: seq<Answer>)

  function Tools(content: seq<Block>): seq<Tool> {
    if content == [] then []
    else if content[0].ToolUse? then [content[0].tool] + Tools(content[1..])
    else Tools(content[1..])
  }

  function Deltas(content: seq<Block>): seq<Payload> {
    if content == [] then []
    else if content[0].Text? then [TextDelta(content[0].text)] + Deltas(content[1..])
    else Deltas(content[1..])
  }

  datatype Check = Needed | NotNeeded | Throws

  /** `requiresApproval`; reading a field of a missing input throws. */
  function RequiresApproval(t: Tool): Check {
    if t.name !in {"shell_exec", "file_write", "file_edit", "git_ops"} then NotNeeded
    else if t.input.NoInput? then Throws
    else if t.name == "shell_exec" && t.input.publishes then Needed
    else if t.name in {"file_write", "file_edit"} && t.input.sensitivePath then Needed
    else if t.name == "git_ops" && t.input.operation in {"commit", "checkout"} then Needed
    else NotNeeded
  }

  // ----- State -----

  datatype Limits = Limits(maxIterations: real, maxInputTokens: Option<nat>, maxOutputTokens: Option<nat>)

  datatype Break = Soft | Hard

  const MAX_LLM_RETRIES := 3

  datatype Pc =
    | Created
    | Building
    | Suspended(released: bool)
    | Calling(attempt: nat)
    | Backoff(attempt: nat)
    | Persisting(response: Response)
    | Asking(response: Response, k: nat, answers: seq<Answer>, actionId: nat, reply: Option<Reply>)
    | Executing(response: Response, k: nat, answers: seq<Answer>)
    | Saving(failed: bool)
    | Finished(failed: bool)

  /** What a run has done, for the statements about whole runs. */
  datatype Entry =
    | Called(messages: seq<Message>, iteration: nat, attempt: nat, inputSoFar: nat, outputSoFar: nat)
    | Replied(response: Response, inputBefore: nat, outputBefore: nat)
    | Minted(actionId: nat, call: nat, tool: Tool)
    | Answered(actionId: nat, reply: Reply)
    | Ran(call: nat, tool: Tool)

  datatype State = State(
    limits: Limits,
    pc: Pc,
    messages: seq<Message>,
    iteration: nat,
    totalInput: nat,
    totalOutput: nat,
    interrupted: Option<Break>,
    paused: bool,
    alwaysApproved: set<string>,
    present: bool,
    session: Session,
    nextAction: nat,
    calls: nat,
    log: seq<Entry>)

  /** A new executor; `present` tells whether its session is registered. */
  function Init(limits: Limits, present: bool): State {
    State(limits, Created, [], 0, 0, 0, None, false, {}, present, NEW_SESSION, 0, 0, [])
  }

  // ----- Effects on the session; none once it is gone -----

  function Note(s: State, p: Payload): State {
    if s.present then s.(session := Emit(s.session, p)) else s
  }

  function NoteAll(s: State, ps: seq<Payload>): State {
    if s.present then s.(session := s.session.(events := s.session.events + ps)) else s
  }

  function Mark(s: State, status: Status, error: Option<string>): State {
    if s.present then s.(session := SetStatus(s.session, status, error)) else s
  }

  // ----- Segments of the executor -----

  const LLM_FAILED := "LLM call failed after retries"

  function Spent(budget: Option<nat>, total: nat): bool {
    budget.Some? && budget.value != 0 && total >= budget.value
  }

  /** The message of the limit that ends the loop, if one is reached. */
  function LimitReached(s: State): Option<string> {
    if s.iteration as real >= s.limits.maxIterations then Some("Iteration limit reached")
    else if Spent(s.limits.maxInputTokens, s.totalInput) then Some("Input token budget exceeded")
    else if Spent(s.limits.maxOutputTokens, s.totalOutput) then Some("Output token budget exceeded")
    else None
  }

  /** After the loop: final status, the done event, and the checkpoint. */
  function Finish(s: State): State {
    var stopped := s.interrupted.Some?;
    var marked := Mark(s, if stopped then Stopped else Completed, None);
    Note(marked, Done(s.iteration, s.totalInput, s.totalOutput, stopped)).(pc := Saving(false))
  }

  /** The catch block of the run. */
  function Crash(s: State): State {
    Mark(Note(s, ErrorNote("error")), Failed, Some("error")).(pc := Saving(true))
  }

  function StartCall(s: State, attempt: nat): State {
    Note(s, Thinking(attempt)).(
    pc := Calling(attempt),
    log := s.log + [Called(s.messages, s.iteration, attempt, s.totalInput, s.totalOutput)])
  }

  function StartIteration(s: State): State {
    StartCall(Note(s.(iteration := s.iteration + 1), IterationStart(s.iteration + 1)), 1)
  }

  /** The head of the loop. */
  function LoopTop(s: State): State {
    if s.interrupted.Some? then Finish(s)
    else
      match LimitReached(s)
      case Some(message) => Finish(Note(s, ErrorNote(message)))
      case None => if s.paused then s.(pc := Suspended(false)) else StartIteration(s)
  }

  function CallFails(s: State, attempt: nat, transient: bool): State {
    if !transient || attempt == MAX_LLM_RETRIES then
      Mark(Note(s, ErrorNote(LLM_FAILED)), Failed, Some(LLM_FAILED)).(pc := Finished(true))
    else s.(pc := Backoff(attempt))
  }

  function CallReturns(s: State, r: Response): State {
    NoteAll(s, Deltas(r.content)).(
    totalInput := s.totalInput + r.inputTokens,
    totalOutput := s.totalOutput + r.outputTokens,
    messages := s.messages + [Assistant(r.content)],
    log := s.log + [Replied(r, s.totalInput, s.totalOutput)],
    pc := Persisting(r))
  }

  function Execute(s: State, r: Response, k: nat, answers: seq<Answer>): State
    requires k < |Tools(r.content)|
  {
    s.(pc := Executing(r, k, answers), log := s.log + [Ran(s.calls, Tools(r.content)[k])])
  }

  function Ask(s: State, r: Response, k: nat, answers: seq<Answer>): State
    requires k < |Tools(r.content)|
  {
    var tool := Tools(r.content)[k];
    s.(session := if s.present then SetPending(s.session, Approval(s.nextAction, tool.name)) else s.session,
    pc := Asking(r, k, answers, s.nextAction, if s.present then None else Some(Reject)),
    nextAction := s.nextAction + 1,
    log := s.log + [Minted(s.nextAction, s.calls, tool)])
  }

  function EndTools(s: State, answers: seq<Answer>): State {
    var told := if answers == [] then s else s.(messages := s.messages + [ToolResults(answers)]);
    LoopTop(Note(told, IterationEnd(s.iteration)))
  }

  function Announce(s: State, t: Tool): State {
    Note(s, ToolCall(t.id, t.name)).(calls := s.calls + 1)
  }

  /** The head of the loop over the tools of one response. */
  function NextTool(s: State, r: Response, k: nat, answers: seq<Answer>): State {
    var tools := Tools(r.content);
    if k >= |tools| || s.interrupted == Some(Hard) then EndTools(s, answers)
    else
      var called := Announce(s, tools[k]);
      match RequiresApproval(tools[k])
      case Throws => Crash(called)
      case Needed =>
        if tools[k].name in s.alwaysApproved then Execute(called, r, k, answers) else Ask(called, r, k, answers)
      case NotNeeded => Execute(called, r, k, answers)
  }

  function AfterPersist(s: State, r: Response): State {
    if r.endTurn || Tools(r.content) == [] then Finish(Note(s, IterationEnd(s.iteration)))
    else NextTool(s, r, 0, [])
  }

  /** One tool is over: its result is collected and announced. */
  function ToolOver(s: State, r: Response, k: nat, answers: seq<Answer>, isError: bool): State
    requires k < |Tools(r.content)|
  {
    var id := Tools(r.content)[k].id;
    NextTool(Note(s, ToolResult(id, isError)), r, k + 1, answers + [Answer(id, isError)])
  }

  // ----- Inputs -----

  datatype Signal = Pause | Resume | Interrupt(how: Break)

  datatype Input =
    // the executor goes on
    | Begin
    | PromptBuilt
    | Resumed
    | Reply(response: Response)
    | Fails(transient: bool)
    | BackoffOver
    | Persisted
    | Continue
    | ToolDone(isError: bool, secret: bool)
    | Saved
    // something happens outside
    | Stop
    | Send(signal: Signal)
    | RouterPause
    | RouterResume
    | Respond(actionId: nat, reply: Reply)
    | Timeout
    | Cleanup
    | Feedback
    | InterruptEvent

  /** The executor is waiting for this. */
  predicate Enabled(s: State, i: Input) {
    match i
    case Begin => s.pc.Created?
    case PromptBuilt => s.pc.Building?
    case Resumed => s.pc == Suspended(true)
    case Reply(_) => s.pc.Calling?
    case Fails(_) => s.pc.Calling?
    case BackoffOver => s.pc.Backoff?
    case Persisted => s.pc.Persisting?
    case Continue => s.pc.Asking? && s.pc.reply.Some? && s.pc.k < |Tools(s.pc.response.content)|
    case ToolDone(_, _) => s.pc.Executing? && s.pc.k < |Tools(s.pc.response.content)|
    case Saved => s.pc.Saving?
    case _ => false
  }

  function Resumption(s: State, i: Input): State
    requires Enabled(s, i)
  {
    match i
    case Begin => Mark(s, Running, None).(pc := Building)
    case PromptBuilt => LoopTop(s.(messages := [UserPrompt]))
    case Resumed => StartIteration(s)
    case Reply(r) => CallReturns(s, r)
    case Fails(transient) => CallFails(s, s.pc.attempt, transient)
    case BackoffOver => StartCall(s, s.pc.attempt + 1)
    case Persisted => AfterPersist(s, s.pc.response)
    case Continue =>
      var Asking(r, k, answers, _, reply) := s.pc;
      if reply.value == Reject then ToolOver(s, r, k, answers, true)
      else
        var names := if reply.value == AlwaysApprove then {Tools(r.content)[k].name} else {};
        Execute(s.(alwaysApproved := s.alwaysApproved + names), r, k, answers)
    case ToolDone(isError, secret) =>
      var noted := if secret then Note(s, ErrorNote("Secret detected")) else s;
      ToolOver(noted, s.pc.response, s.pc.k, s.pc.answers, isError)
    case Saved => s.(pc := Finished(s.pc.failed))
  }

  /** `interrupt` */
  function Sent(s: State, signal: Signal): State {
    match signal
    case Pause => Mark(s.(paused := true), Paused, None)
    case Resume =>
      Mark(s.(paused := false, pc := if s.pc.Suspended? then Suspended(true) else s.pc), Running, None)
    case Interrupt(how) => s.(interrupted := Some(how))
  }

  function Outside(s: State, i: Input): State {
    match i
    case Stop =>
      // The listener is registered by the constructor, so an earlier stop is not heard.
      if s.present && !Terminal(s.session.status)
      then Mark(if s.pc.Created? then s else s.(interrupted := Some(Hard)), Stopped, None) else s
    case Send(signal) => if s.pc.Created? then s else Sent(s, signal)
    case RouterPause => Mark(s, Paused, None)
    case RouterResume => if s.session.status == Paused then Mark(s, Running, None) else s
    case Respond(actionId, reply) =>
      if s.present && CanResolve(s.session, actionId) then
        s.(session := Resolve(s.session, actionId, reply),
        log := s.log + [Answered(actionId, reply)],
        pc := if s.pc.Asking? && s.pc.actionId == actionId && s.pc.reply.None? then s.pc.(reply := Some(reply)) else s.pc)
      else s
    case Timeout => if s.pc.Asking? && s.pc.reply.None? then s.(pc := s.pc.(reply := Some(Reject))) else s
    case Cleanup => if Terminal(s.session.status) then s.(present := false) else s
    case Feedback => Note(s, FeedbackNote)
    case InterruptEvent => Note(s, InterruptNote)
    case _ => s
  }

  function Step(s: State, i: Input): State {
    if Enabled(s, i) then Resumption(s, i) else Outside(s, i)
  }

  /** The state after the first `n` inputs. */
  function Run(limits: Limits, present: bool, inputs: seq<Input>, n: nat): State
    requires n <= |inputs|
  {
    Along(Step, Init(limits, present), inputs, n)
  }

  lemma RunStep(limits: Limits, present: bool, inputs: seq<Input>, n: nat)
    requires n < |inputs|
    ensures Run(limits, present, inputs, n + 1) == Step(Run(limits, present, inputs, n), inputs[n])
  {
  }
}

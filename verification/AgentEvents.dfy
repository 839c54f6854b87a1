/** The grammar of the events a session records, over every run. */
module AgentEvents {
  import opened AgentTypes
  import opened AgentRun
  import opened Traces
  import opened Wrappers

  /** Where the events so far stand; `n` counts the iterations started. */
  datatype Phase = Idle(n: nat) | InIteration(n: nat) | InTool(n: nat, id: string) | Ended(n: nat) | Broken

  /** The grammar: iterations are numbered from 1 and closed by their own end; inside one, each
      tool call is closed by its own result before anything else; the done event comes once,
      outside any iteration, and counts the iterations. All other events may come anywhere. */
  function Advance(g: Phase, p: Payload): Phase {
    match p
    case IterationStart(n) => if g.Idle? && n == g.n + 1 then InIteration(n) else Broken
    case ToolCall(id, _) => if g.InIteration? then InTool(g.n, id) else Broken
    case ToolResult(id, _) => if g.InTool? && g.id == id then InIteration(g.n) else Broken
    case IterationEnd(n) => if g.InIteration? && n == g.n then Idle(n) else Broken
    case Done(n, _, _, _) => if g.Idle? && n == g.n then Ended(n) else Broken
    case _ => g
  }

  /** The phase after the first `n` events. */
  function PhaseAt(events: seq<Payload>, n: nat): Phase
    requires n <= |events|
  {
    if n == 0 then Idle(0) else Advance(PhaseAt(events, n - 1), events[n - 1])
  }

  function PhaseOf(events: seq<Payload>): Phase {
    PhaseAt(events, |events|)
  }

  lemma {:induction false} PhaseGrows(events: seq<Payload>, more: seq<Payload>, n: nat)
    requires n <= |events|
    ensures PhaseAt(events + more, n) == PhaseAt(events, n)
  {
    if n > 0 {
      PhaseGrows(events, more, n - 1);
    }
  }

  lemma PhaseAfter(events: seq<Payload>, p: Payload)
    ensures PhaseOf(events + [p]) == Advance(PhaseOf(events), p)
  {
    PhaseGrows(events, [p], |events|);
  }

  lemma {:induction false} PhaseAfterDeltas(events: seq<Payload>, content: seq<Block>)
    ensures PhaseOf(events + Deltas(content)) == PhaseOf(events)
    decreases |content|
  {
    if content == [] {
      assert events + [] == events;
    } else if content[0].Text? {
      PhaseAfter(events, TextDelta(content[0].text));
      PhaseAfterDeltas(events + [TextDelta(content[0].text)], content[1..]);
      assert events + Deltas(content) == events + [TextDelta(content[0].text)] + Deltas(content[1..]);
    } else {
      PhaseAfterDeltas(events, content[1..]);
    }
  }

  // ----- Done -----

  /** The last event of a run that did not fail follows its final status and agrees with it. */
  ghost predicate DoneAgrees(events: seq<Payload>, input: nat, output: nat) {
    forall i | 0 <= i < |events| && events[i].Done? ::
      && i > 0 && events[i - 1] == StatusChange(if events[i].interrupted then Stopped else Completed, None)
      && events[i].input == input && events[i].output == output
  }

  ghost predicate NoDone(events: seq<Payload>) {
    forall i | 0 <= i < |events| :: !events[i].Done?
  }

  // ----- The invariant -----

  /** The phase that goes with the executor's position, where it matters. */
  ghost predicate InPhase(s: State, g: Phase) {
    match s.pc
    case Created => g == Idle(0) && s.iteration == 0
    case Building => g == Idle(0) && s.iteration == 0
    case Suspended(_) => g == Idle(s.iteration)
    case Calling(_) => g == InIteration(s.iteration)
    case Backoff(_) => g == InIteration(s.iteration)
    case Persisting(_) => g == InIteration(s.iteration)
    case Asking(r, k, _, _, _) => k < |Tools(r.content)| && g == InTool(s.iteration, Tools(r.content)[k].id)
    case Executing(r, k, _) => k < |Tools(r.content)| && g == InTool(s.iteration, Tools(r.content)[k].id)
    case Saving(failed) => if failed then g.InTool? else g == Ended(s.iteration)
    case Finished(failed) => if failed then g.InTool? || g.InIteration? else g == Ended(s.iteration)
  }

  ghost predicate Over(s: State) {
    s.pc in {Saving(false), Finished(false)}
  }

  ghost predicate Inv(s: State) {
    && PhaseOf(s.session.events) != Broken
    && (s.present ==> InPhase(s, PhaseOf(s.session.events)))
    && (if Over(s) then DoneAgrees(s.session.events, s.totalInput, s.totalOutput) else NoDone(s.session.events))
  }

  /** A running executor whose events stand at `g`, if its session is still there. */
  ghost predicate At(s: State, g: Phase) {
    && PhaseOf(s.session.events) != Broken && NoDone(s.session.events)
    && (s.present ==> PhaseOf(s.session.events) == g)
  }

  lemma NoteAt(s: State, p: Payload, g: Phase)
    requires At(s, g) && Advance(g, p) != Broken && !p.Done?
    ensures At(Note(s, p), Advance(g, p))
  {
    PhaseAfter(s.session.events, p);
  }

  lemma MarkAt(s: State, status: Status, error: Option<string>, g: Phase)
    requires At(s, g) && g != Broken
    ensures At(Mark(s, status, error), g)
  {
    PhaseAfter(s.session.events, StatusChange(status, error));
  }

  lemma FinishKeeps(s: State)
    requires At(s, Idle(s.iteration))
    ensures Inv(Finish(s))
  {
    var stopped := s.interrupted.Some?;
    var marked := Mark(s, if stopped then Stopped else Completed, None);
    MarkAt(s, if stopped then Stopped else Completed, None, Idle(s.iteration));
    PhaseAfter(marked.session.events, Done(s.iteration, s.totalInput, s.totalOutput, stopped));
  }

  lemma CrashKeeps(s: State, id: string)
    requires At(s, InTool(s.iteration, id))
    ensures Inv(Crash(s))
  {
    NoteAt(s, ErrorNote("error"), InTool(s.iteration, id));
    MarkAt(Note(s, ErrorNote("error")), Failed, Some("error"), InTool(s.iteration, id));
  }

  lemma CallKeeps(s: State, attempt: nat)
    requires At(s, InIteration(s.iteration))
    ensures Inv(StartCall(s, attempt))
  {
    NoteAt(s, Thinking(attempt), InIteration(s.iteration));
  }

  lemma StartKeeps(s: State)
    requires At(s, Idle(s.iteration))
    ensures Inv(StartIteration(s))
  {
    var t := s.(iteration := s.iteration + 1);
    NoteAt(t, IterationStart(s.iteration + 1), Idle(s.iteration));
    CallKeeps(Note(t, IterationStart(s.iteration + 1)), 1);
  }

  lemma LoopTopKeeps(s: State)
    requires At(s, Idle(s.iteration))
    ensures Inv(LoopTop(s))
  {
    if s.interrupted.Some? {
      FinishKeeps(s);
    } else if LimitReached(s).Some? {
      NoteAt(s, ErrorNote(LimitReached(s).value), Idle(s.iteration));
      FinishKeeps(Note(s, ErrorNote(LimitReached(s).value)));
    } else if !s.paused {
      StartKeeps(s);
    }
  }

  lemma EndToolsKeeps(s: State, answers: seq<Answer>)
    requires At(s, InIteration(s.iteration))
    ensures Inv(EndTools(s, answers))
  {
    var told := if answers == [] then s else s.(messages := s.messages + [ToolResults(answers)]);
    NoteAt(told, IterationEnd(s.iteration), InIteration(s.iteration));
    LoopTopKeeps(Note(told, IterationEnd(s.iteration)));
  }

  lemma AskKeeps(s: State, r: Response, k: nat, answers: seq<Answer>)
    requires k < |Tools(r.content)| && At(s, InTool(s.iteration, Tools(r.content)[k].id))
    ensures Inv(Ask(s, r, k, answers))
  {
    PhaseAfter(s.session.events, ApprovalNeeded(Approval(s.nextAction, Tools(r.content)[k].name)));
  }

  lemma NextToolKeeps(s: State, r: Response, k: nat, answers: seq<Answer>)
    requires At(s, InIteration(s.iteration))
    ensures Inv(NextTool(s, r, k, answers))
  {
    var tools := Tools(r.content);
    if k >= |tools| || s.interrupted == Some(Hard) {
      EndToolsKeeps(s, answers);
    } else {
      var p := ToolCall(tools[k].id, tools[k].name);
      NoteAt(s, p, InIteration(s.iteration));
      var called := Announce(s, tools[k]);
      CrashKeeps(called, tools[k].id);
      AskKeeps(called, r, k, answers);
    }
  }

  lemma ToolOverKeeps(s: State, r: Response, k: nat, answers: seq<Answer>, isError: bool)
    requires k < |Tools(r.content)| && At(s, InTool(s.iteration, Tools(r.content)[k].id))
    ensures Inv(ToolOver(s, r, k, answers, isError))
  {
    var id := Tools(r.content)[k].id;
    NoteAt(s, ToolResult(id, isError), InTool(s.iteration, id));
    NextToolKeeps(Note(s, ToolResult(id, isError)), r, k + 1, answers + [Answer(id, isError)]);
  }

  lemma CallReturnsKeeps(s: State, r: Response)
    requires At(s, InIteration(s.iteration))
    ensures Inv(CallReturns(s, r))
  {
    PhaseAfterDeltas(s.session.events, r.content);
    DeltasAreNotDone(r.content);
  }

  lemma {:induction false} DeltasAreNotDone(content: seq<Block>)
    ensures NoDone(Deltas(content))
  {
    if content != [] {
      DeltasAreNotDone(content[1..]);
    }
  }

  lemma CallFailsKeeps(s: State, attempt: nat, transient: bool)
    requires At(s, InIteration(s.iteration))
    ensures Inv(CallFails(s, attempt, transient))
  {
    NoteAt(s, ErrorNote(LLM_FAILED), InIteration(s.iteration));
    MarkAt(Note(s, ErrorNote(LLM_FAILED)), Failed, Some(LLM_FAILED), InIteration(s.iteration));
  }

  lemma ResumptionKeeps(s: State, i: Input)
    requires Inv(s) && Enabled(s, i)
    ensures Inv(Resumption(s, i))
  {
    match i
    case Begin => MarkAt(s, Running, None, Idle(0));
    case PromptBuilt => LoopTopKeeps(s.(messages := [UserPrompt]));
    case Resumed => StartKeeps(s);
    case Reply(r) => CallReturnsKeeps(s, r);
    case Fails(transient) => CallFailsKeeps(s, s.pc.attempt, transient);
    case BackoffOver => CallKeeps(s, s.pc.attempt + 1);
    case Persisted =>
      NoteAt(s, IterationEnd(s.iteration), InIteration(s.iteration));
      FinishKeeps(Note(s, IterationEnd(s.iteration)));
      NextToolKeeps(s, s.pc.response, 0, []);
    case Continue =>
      if s.pc.reply.value == Reject {
        ToolOverKeeps(s, s.pc.response, s.pc.k, s.pc.answers, true);
      }
    case ToolDone(isError, secret) =>
      var id := Tools(s.pc.response.content)[s.pc.k].id;
      NoteAt(s, ErrorNote("Secret detected"), InTool(s.iteration, id));
      var noted := if secret then Note(s, ErrorNote("Secret detected")) else s;
      ToolOverKeeps(noted, s.pc.response, s.pc.k, s.pc.answers, isError);
    case Saved =>
  }

  /** From outside comes at most one event, and none that the grammar mentions. */
  ghost predicate Quiet(s: State, t: State) {
    && t.iteration == s.iteration && t.totalInput == s.totalInput && t.totalOutput == s.totalOutput
    && (t.present ==> s.present)
    && (t.pc == s.pc
        || (s.pc.Suspended? && t.pc.Suspended?)
        || (s.pc.Asking? && t.pc.Asking? && t.pc == s.pc.(reply := t.pc.reply)))
    && (t.session.events == s.session.events
        || exists p :: t.session.events == s.session.events + [p] && !Structural(p))
  }

  lemma RespondIsQuiet(s: State, actionId: nat, reply: AgentTypes.Reply)
    ensures Quiet(s, Outside(s, Respond(actionId, reply)))
  {
  }

  lemma StopIsQuiet(s: State)
    ensures Quiet(s, Outside(s, Stop))
  {
  }

  lemma OutsideIsQuiet(s: State, i: Input)
    ensures Quiet(s, Outside(s, i))
  {
    match i
    case Respond(actionId, reply) => RespondIsQuiet(s, actionId, reply);
    case Stop => StopIsQuiet(s);
    case _ =>
  }

  lemma OutsideKeeps(s: State, i: Input)
    requires Inv(s)
    ensures Inv(Outside(s, i))
  {
    var t := Outside(s, i);
    OutsideIsQuiet(s, i);
    if t.session.events != s.session.events {
      var p :| t.session.events == s.session.events + [p] && !Structural(p);
      PhaseAfter(s.session.events, p);
    }
  }

  lemma StepKeeps(s: State, i: Input)
    requires Inv(s)
    ensures Inv(Step(s, i))
  {
    if Enabled(s, i) {
      ResumptionKeeps(s, i);
    } else {
      OutsideKeeps(s, i);
    }
  }

  lemma Always(limits: Limits, present: bool, inputs: seq<Input>, n: nat)
    requires n <= |inputs|
    ensures Inv(Run(limits, present, inputs, n))
  {
    assert PhaseOf([]) == Idle(0);
    forall s, i | Inv(s) ensures Inv(Step(s, i)) {
      StepKeeps(s, i);
    }
    AlongKeeps(Step, Init(limits, present), inputs, n, s => Inv(s));
  }

  // ----- What the grammar says -----

  predicate Structural(p: Payload) {
    p.IterationStart? || p.ToolCall? || p.ToolResult? || p.IterationEnd? || p.Done?
  }

  lemma {:induction false} BrokenStays(events: seq<Payload>, i: nat, n: nat)
    requires i <= n <= |events| && PhaseAt(events, n) != Broken
    ensures PhaseAt(events, i) != Broken
  {
    if i < n {
      BrokenStays(events, i, n - 1);
    }
  }

  lemma {:induction false} PhaseHolds(events: seq<Payload>, i: nat, j: nat)
    requires i <= j <= |events| && forall m | i <= m < j :: !Structural(events[m])
    ensures PhaseAt(events, j) == PhaseAt(events, i)
  {
    if i < j {
      PhaseHolds(events, i, j - 1);
    }
  }

  lemma ClosedFirst(events: seq<Payload>, i: nat, j: nat)
    requires PhaseOf(events) != Broken
    requires i < j < |events| && events[i].ToolCall? && Structural(events[j])
    requires forall m | i < m < j :: !Structural(events[m])
    ensures events[j].ToolResult? && events[j].resultOf == events[i].toolUseId
  {
    BrokenStays(events, i + 1, |events|);
    BrokenStays(events, j + 1, |events|);
    PhaseHolds(events, i + 1, j);
  }

  /** In every run, whatever is recorded after a tool call, the first event that opens or
      closes anything is the result of that same call. */
  lemma {:induction false} ToolCallIsClosedFirst(limits: Limits, present: bool, inputs: seq<Input>, events: seq<Payload>, i: nat, j: nat)
    requires events == Run(limits, present, inputs, |inputs|).session.events
    requires i < j < |events| && events[i].ToolCall? && Structural(events[j])
    requires forall m | i < m < j :: !Structural(events[m])
    ensures events[j].ToolResult? && events[j].resultOf == events[i].toolUseId
  {
    Always(limits, present, inputs, |inputs|);
    ClosedFirst(events, i, j);
  }

  function CountDone(events: seq<Payload>, n: nat): nat
    requires n <= |events|
  {
    if n == 0 then 0 else CountDone(events, n - 1) + if events[n - 1].Done? then 1 else 0
  }

  lemma {:induction false} DoneOnce(events: seq<Payload>, n: nat)
    requires n <= |events| && PhaseAt(events, n) != Broken
    ensures CountDone(events, n) == if PhaseAt(events, n).Ended? then 1 else 0
  {
    if n > 0 {
      DoneOnce(events, n - 1);
    }
  }

  lemma {:induction false} CountNoDone(events: seq<Payload>, n: nat)
    requires n <= |events| && NoDone(events)
    ensures CountDone(events, n) == 0
  {
    if n > 0 {
      CountNoDone(events, n - 1);
    }
  }

  function CountIf(events: seq<Payload>, n: nat, p: Payload -> bool): nat
    requires n <= |events|
  {
    if n == 0 then 0 else CountIf(events, n - 1, p) + if p(events[n - 1]) then 1 else 0
  }

  const STARTS := (p: Payload) => p.IterationStart?
  const ENDS := (p: Payload) => p.IterationEnd?
  const CALLS := (p: Payload) => p.ToolCall?
  const RESULTS := (p: Payload) => p.ToolResult?

  lemma {:induction false} PhaseCounts(events: seq<Payload>, n: nat)
    requires n <= |events| && PhaseAt(events, n) != Broken
    ensures var g := PhaseAt(events, n);
            && CountIf(events, n, STARTS) == g.n
            && CountIf(events, n, ENDS) == g.n - (if g.InIteration? || g.InTool? then 1 else 0)
            && CountIf(events, n, CALLS) == CountIf(events, n, RESULTS) + if g.InTool? then 1 else 0
  {
    if n > 0 {
      PhaseCounts(events, n - 1);
    }
  }

  // ----- Runs that end while their session is registered -----

  lemma ToolsOfNobody(s: State, r: Response, k: nat, answers: seq<Answer>)
    ensures NextTool(s, r, k, answers).present == s.present
    ensures !s.present ==> NextTool(s, r, k, answers).session == s.session
  {
  }

  lemma ToolOverOfNobody(s: State, r: Response, k: nat, answers: seq<Answer>, isError: bool)
    requires k < |Tools(r.content)|
    ensures ToolOver(s, r, k, answers, isError).present == s.present
    ensures !s.present ==> ToolOver(s, r, k, answers, isError).session == s.session
  {
    var id := Tools(r.content)[k].id;
    ToolsOfNobody(Note(s, ToolResult(id, isError)), r, k + 1, answers + [Answer(id, isError)]);
  }

  /** A resumption keeps a session registered, and without one leaves it as it is. */
  lemma ResumptionOfNobody(s: State, i: Input)
    requires Enabled(s, i)
    ensures Resumption(s, i).present == s.present
    ensures !s.present ==> Resumption(s, i).session == s.session
  {
    if i.Persisted? {
      ToolsOfNobody(s, s.pc.response, 0, []);
    } else if i.Continue? {
      ToolOverOfNobody(s, s.pc.response, s.pc.k, s.pc.answers, true);
    } else if i.ToolDone? {
      var noted := if i.secret then Note(s, ErrorNote("Secret detected")) else s;
      ToolOverOfNobody(noted, s.pc.response, s.pc.k, s.pc.answers, i.isError);
    }
  }

  /** Step `n` ends the run without failing, and its session is registered then. */
  ghost predicate EndsAt(limits: Limits, present: bool, inputs: seq<Input>, n: nat)
    requires n < |inputs|
  {
    var s, t := Run(limits, present, inputs, n), Run(limits, present, inputs, n + 1);
    !Over(s) && Over(t) && t.present
  }

  ghost predicate EndedWhileRegistered(limits: Limits, present: bool, inputs: seq<Input>, n: nat)
    requires n <= |inputs|
  {
    exists m | 0 <= m < n :: EndsAt(limits, present, inputs, m)
  }

  /** What is recorded when the run has ended while registered, and when it has not. */
  ghost predicate Recorded(s: State, ended: bool) {
    if ended then Over(s) && PhaseOf(s.session.events) == Ended(s.iteration) else NoDone(s.session.events)
  }

  lemma OutsideRecords(s: State, i: Input, ended: bool)
    requires Recorded(s, ended)
    ensures Recorded(Outside(s, i), ended) && Over(Outside(s, i)) == Over(s)
  {
    var t := Outside(s, i);
    OutsideIsQuiet(s, i);
    if t.session.events != s.session.events {
      var p :| t.session.events == s.session.events + [p] && !Structural(p);
      PhaseAfter(s.session.events, p);
    }
  }

  lemma ResumptionRecords(s: State, i: Input, ended: bool)
    requires Inv(s) && Recorded(s, ended) && Enabled(s, i)
    ensures var t := Resumption(s, i); Recorded(t, ended || (!Over(s) && Over(t) && t.present))
  {
    ResumptionKeeps(s, i);
    ResumptionOfNobody(s, i);
    if Over(s) {
      assert i == Saved;
    }
  }

  lemma StepRecords(s: State, i: Input, ended: bool)
    requires Inv(s) && Recorded(s, ended)
    ensures var t := Step(s, i); Recorded(t, ended || (!Over(s) && Over(t) && t.present))
  {
    if Enabled(s, i) {
      ResumptionRecords(s, i, ended);
    } else {
      OutsideRecords(s, i, ended);
    }
  }

  lemma EndedOneMore(limits: Limits, present: bool, inputs: seq<Input>, n: nat)
    requires n < |inputs|
    ensures EndedWhileRegistered(limits, present, inputs, n + 1) <==>
            EndedWhileRegistered(limits, present, inputs, n) || EndsAt(limits, present, inputs, n)
  {
  }

  lemma NextRecords(limits: Limits, present: bool, inputs: seq<Input>, n: nat, ended: bool)
    requires n < |inputs| && Recorded(Run(limits, present, inputs, n), ended)
    ensures Recorded(Run(limits, present, inputs, n + 1), ended || EndsAt(limits, present, inputs, n))
  {
    Always(limits, present, inputs, n);
    StepRecords(Run(limits, present, inputs, n), inputs[n], ended);
  }

  lemma {:induction false} RunRecords(limits: Limits, present: bool, inputs: seq<Input>, n: nat)
    requires n <= |inputs|
    ensures Recorded(Run(limits, present, inputs, n), EndedWhileRegistered(limits, present, inputs, n))
  {
    if n > 0 {
      RunRecords(limits, present, inputs, n - 1);
      NextRecords(limits, present, inputs, n - 1, EndedWhileRegistered(limits, present, inputs, n - 1));
      EndedOneMore(limits, present, inputs, n - 1);
    }
  }

  /** Every run has recorded the done event exactly once if it has ended, without failing, while its
      session was registered, and never otherwise. The event follows the final status and agrees with
      it, and it carries the numbers of iterations and tokens. */
  lemma {:induction false} DoneIsRecordedOnce(limits: Limits, present: bool, inputs: seq<Input>)
    ensures var s := Run(limits, present, inputs, |inputs|);
            var events := s.session.events;
            var ended := EndedWhileRegistered(limits, present, inputs, |inputs|);
            && CountDone(events, |events|) == (if ended then 1 else 0)
            && (ended ==> Over(s) && PhaseOf(events) == Ended(s.iteration))
            && (Over(s) && s.present ==> ended)
            && (Over(s) ==> DoneAgrees(events, s.totalInput, s.totalOutput))
  {
    var s := Run(limits, present, inputs, |inputs|);
    var events := s.session.events;
    Always(limits, present, inputs, |inputs|);
    RunRecords(limits, present, inputs, |inputs|);
    DoneOnce(events, |events|);
    if !EndedWhileRegistered(limits, present, inputs, |inputs|) {
      CountNoDone(events, |events|);
    }
  }

  /** A run that has ended, without failing, while its session was registered has recorded the start
      and the end of every iteration, and a result for every tool call. */
  lemma {:induction false} EverythingIsClosed(limits: Limits, present: bool, inputs: seq<Input>)
    requires EndedWhileRegistered(limits, present, inputs, |inputs|)
    ensures var s := Run(limits, present, inputs, |inputs|);
            var events := s.session.events;
            && CountIf(events, |events|, STARTS) == CountIf(events, |events|, ENDS) == s.iteration
            && CountIf(events, |events|, CALLS) == CountIf(events, |events|, RESULTS)
  {
    RunRecords(limits, present, inputs, |inputs|);
    var events := Run(limits, present, inputs, |inputs|).session.events;
    PhaseCounts(events, |events|);
  }
}

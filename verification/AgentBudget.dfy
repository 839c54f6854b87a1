/** The limits of a run: iterations, retries, token budgets, and the amount of work. */
module AgentBudget {
  import opened AgentTypes
  import opened AgentRun
  import opened Traces
  import opened Wrappers

  // ----- Sums over the log -----

  function InputOf(e: Entry): nat { if e.Replied? then e.response.inputTokens else 0 }

  function OutputOf(e: Entry): nat { if e.Replied? then e.response.outputTokens else 0 }

  function ToolsOf(e: Entry): nat { if e.Replied? then |Tools(e.response.content)| else 0 }

  function Sum(log: seq<Entry>, n: nat, f: Entry -> nat): nat
    requires n <= |log|
  {
    if n == 0 then 0 else Sum(log, n - 1, f) + f(log[n - 1])
  }

  lemma {:induction false} SumGrows(log: seq<Entry>, x: Entry, n: nat, f: Entry -> nat)
    requires n <= |log|
    ensures Sum(log + [x], n, f) == Sum(log, n, f)
  {
    if n > 0 {
      SumGrows(log, x, n - 1, f);
    }
  }

  lemma SumAfter(log: seq<Entry>, x: Entry, f: Entry -> nat)
    ensures Sum(log + [x], |log| + 1, f) == Sum(log, |log|, f) + f(x)
  {
    SumGrows(log, x, |log|, f);
  }

  // ----- The invariant -----

  ghost predicate WithinBudgets(limits: Limits, input: nat, output: nat) {
    && (limits.maxInputTokens.Some? && limits.maxInputTokens.value > 0 ==> input < limits.maxInputTokens.value)
    && (limits.maxOutputTokens.Some? && limits.maxOutputTokens.value > 0 ==> output < limits.maxOutputTokens.value)
  }

  /** What the head of the loop decides: an interrupt ends it without a word; otherwise the first limit
      reached, iterations before input before output, ends it with its message; otherwise it waits in a
      pause, or starts the next iteration with a first call. */
  lemma LoopTopDecides(s: State)
    requires s.present
    ensures var t := LoopTop(s);
            var l := s.limits;
            var more := (message: string) => s.session.events + [ErrorNote(message)];
            var ends := (events: seq<Payload>, status: Status, stopped: bool) =>
              events + [StatusChange(status, None), Done(s.iteration, s.totalInput, s.totalOutput, stopped)];
            if s.interrupted.Some? then
              t.pc == Saving(false) && t.session.events == ends(s.session.events, Stopped, true)
            else if s.iteration as real >= l.maxIterations then
              t.pc == Saving(false) && t.session.events == ends(more("Iteration limit reached"), Completed, false)
            else if l.maxInputTokens.Some? && l.maxInputTokens.value > 0 && s.totalInput >= l.maxInputTokens.value then
              t.pc == Saving(false) && t.session.events == ends(more("Input token budget exceeded"), Completed, false)
            else if l.maxOutputTokens.Some? && l.maxOutputTokens.value > 0 && s.totalOutput >= l.maxOutputTokens.value then
              t.pc == Saving(false) && t.session.events == ends(more("Output token budget exceeded"), Completed, false)
            else if s.paused then t == s.(pc := Suspended(false))
            else && t.pc == Calling(1) && t.iteration == s.iteration + 1
                 && t.session.events == s.session.events + [IterationStart(s.iteration + 1), Thinking(1)]
  {
  }

  /** Entry `e` is a call of an earlier iteration, or an earlier or the same attempt of this one. */
  ghost predicate UpTo(e: Entry, iteration: nat, attempt: nat) {
    e.Called? ==> e.iteration < iteration || (e.iteration == iteration && e.attempt <= attempt)
  }

  ghost predicate CallOk(limits: Limits, e: Entry) {
    && (e.Called? ==>
          1 <= e.attempt <= MAX_LLM_RETRIES && WithinBudgets(limits, e.inputSoFar, e.outputSoFar))
    && (e.Replied? ==> WithinBudgets(limits, e.inputBefore, e.outputBefore))
  }

  ghost predicate CallsOk(limits: Limits, log: seq<Entry>) {
    && (forall e | 0 <= e < |log| :: CallOk(limits, log[e]))
    && (forall d, e | 0 <= d < e < |log| && log[d].Called? && log[e].Called? ::
          log[d].iteration < log[e].iteration
          || (log[d].iteration == log[e].iteration && log[d].attempt < log[e].attempt))
  }

  /** The totals are those of the last reply and of what came before it. */
  ghost predicate LastReply(s: State, e: int) {
    && 0 <= e < |s.log| && s.log[e].Replied? && (forall j | e < j < |s.log| :: !s.log[j].Replied?)
    && s.totalInput == s.log[e].inputBefore + s.log[e].response.inputTokens
    && s.totalOutput == s.log[e].outputBefore + s.log[e].response.outputTokens
  }

  ghost predicate TotalsOk(s: State) {
    && s.totalInput == Sum(s.log, |s.log|, InputOf)
    && s.totalOutput == Sum(s.log, |s.log|, OutputOf)
    && ((s.totalInput == 0 && s.totalOutput == 0) || exists e :: LastReply(s, e))
  }

  /** The attempt the executor is at; between calls, the last one there can have been. */
  function AttemptAt(pc: Pc): nat {
    if pc.Calling? || pc.Backoff? then pc.attempt else MAX_LLM_RETRIES
  }

  ghost predicate PcOk(s: State) {
    match s.pc
    case Suspended(_) => LimitReached(s).None?
    case Calling(a) => 1 <= a <= MAX_LLM_RETRIES && WithinBudgets(s.limits, s.totalInput, s.totalOutput)
    case Backoff(a) => 1 <= a < MAX_LLM_RETRIES && WithinBudgets(s.limits, s.totalInput, s.totalOutput)
    case _ => true
  }

  /** Whatever the position of the executor. */
  ghost predicate Base(s: State, attempt: nat) {
    && CallsOk(s.limits, s.log) && TotalsOk(s)
    && (s.iteration == 0 || (s.iteration - 1) as real < s.limits.maxIterations)
    && forall e | 0 <= e < |s.log| :: UpTo(s.log[e], s.iteration, attempt)
  }

  ghost predicate Inv(s: State) {
    Base(s, AttemptAt(s.pc)) && PcOk(s)
  }

  // ----- Steps -----

  lemma LogKeeps(s: State, t: State, x: Entry)
    requires TotalsOk(s) && t.log == s.log + [x] && !x.Replied?
    requires t.totalInput == s.totalInput && t.totalOutput == s.totalOutput
    ensures TotalsOk(t)
  {
    SumAfter(s.log, x, InputOf);
    SumAfter(s.log, x, OutputOf);
    if e :| LastReply(s, e) {
      assert forall i | 0 <= i < |s.log| :: t.log[i] == s.log[i];
      assert LastReply(t, e);
    }
  }

  lemma SameLogKeeps(s: State, t: State)
    requires TotalsOk(s) && t.log == s.log && t.totalInput == s.totalInput && t.totalOutput == s.totalOutput
    ensures TotalsOk(t)
  {
    if e :| LastReply(s, e) {
      assert LastReply(t, e);
    }
  }

  lemma CallKeeps(s: State, attempt: nat)
    requires 1 <= attempt <= MAX_LLM_RETRIES && Base(s, attempt - 1)
    requires WithinBudgets(s.limits, s.totalInput, s.totalOutput)
    ensures Inv(StartCall(s, attempt))
  {
    var t := StartCall(s, attempt);
    LogKeeps(s, t, t.log[|s.log|]);
    assert forall i | 0 <= i < |s.log| :: t.log[i] == s.log[i];
  }

  lemma NextIteration(s: State, t: State)
    requires Base(s, MAX_LLM_RETRIES) && s.iteration as real < s.limits.maxIterations
    requires t.log == s.log && t.limits == s.limits && t.iteration == s.iteration + 1
    requires t.totalInput == s.totalInput && t.totalOutput == s.totalOutput
    ensures Base(t, 0)
  {
    SameLogKeeps(s, t);
  }

  lemma StartKeeps(s: State)
    requires Base(s, MAX_LLM_RETRIES) && LimitReached(s).None?
    ensures Inv(StartIteration(s))
  {
    var t := Note(s.(iteration := s.iteration + 1), IterationStart(s.iteration + 1));
    NextIteration(s, t);
    CallKeeps(t, 1);
  }

  lemma QuietKeeps(s: State, t: State)
    requires Base(s, MAX_LLM_RETRIES) && t.log == s.log && t.limits == s.limits && t.iteration == s.iteration
    requires t.totalInput == s.totalInput && t.totalOutput == s.totalOutput
    ensures Base(t, MAX_LLM_RETRIES)
  {
    SameLogKeeps(s, t);
  }

  lemma LoopTopKeeps(s: State)
    requires Base(s, MAX_LLM_RETRIES)
    ensures Inv(LoopTop(s))
  {
    if s.interrupted.None? && LimitReached(s).None? && !s.paused {
      StartKeeps(s);
    } else {
      QuietKeeps(s, LoopTop(s));
    }
  }

  lemma EntryKeeps(s: State, t: State, x: Entry)
    requires Base(s, MAX_LLM_RETRIES) && t.log == s.log + [x] && t.limits == s.limits && t.iteration == s.iteration
    requires !x.Called? && !x.Replied? && t.totalInput == s.totalInput && t.totalOutput == s.totalOutput
    ensures Base(t, MAX_LLM_RETRIES)
  {
    LogKeeps(s, t, x);
    assert forall i | 0 <= i < |s.log| :: t.log[i] == s.log[i];
  }

  lemma EndToolsKeeps(s: State, answers: seq<Answer>)
    requires Base(s, MAX_LLM_RETRIES)
    ensures Inv(EndTools(s, answers))
  {
    var told := if answers == [] then s else s.(messages := s.messages + [ToolResults(answers)]);
    QuietKeeps(s, Note(told, IterationEnd(s.iteration)));
    LoopTopKeeps(Note(told, IterationEnd(s.iteration)));
  }

  lemma CalledKeeps(s: State, r: Response, k: nat, answers: seq<Answer>)
    requires Base(s, MAX_LLM_RETRIES) && k < |Tools(r.content)|
    ensures var t := Announce(s, Tools(r.content)[k]);
            Inv(Execute(t, r, k, answers)) && Inv(Ask(t, r, k, answers)) && Inv(Crash(t))
  {
    var tool := Tools(r.content)[k];
    var t := Announce(s, tool);
    EntryKeeps(s, Execute(t, r, k, answers), Ran(t.calls, tool));
    EntryKeeps(s, Ask(t, r, k, answers), Minted(t.nextAction, t.calls, tool));
    QuietKeeps(s, Crash(t));
  }

  lemma NextToolKeeps(s: State, r: Response, k: nat, answers: seq<Answer>)
    requires Base(s, MAX_LLM_RETRIES)
    ensures Inv(NextTool(s, r, k, answers))
  {
    var tools := Tools(r.content);
    if k >= |tools| || s.interrupted == Some(Hard) {
      EndToolsKeeps(s, answers);
    } else {
      CalledKeeps(s, r, k, answers);
    }
  }

  lemma ToolOverKeeps(s: State, r: Response, k: nat, answers: seq<Answer>, isError: bool)
    requires Base(s, MAX_LLM_RETRIES) && k < |Tools(r.content)|
    ensures Inv(ToolOver(s, r, k, answers, isError))
  {
    var id := Tools(r.content)[k].id;
    QuietKeeps(s, Note(s, ToolResult(id, isError)));
    NextToolKeeps(Note(s, ToolResult(id, isError)), r, k + 1, answers + [Answer(id, isError)]);
  }

  lemma CallReturnsKeeps(s: State, r: Response)
    requires Inv(s) && s.pc.Calling?
    ensures Inv(CallReturns(s, r))
  {
    var t := CallReturns(s, r);
    var x := Replied(r, s.totalInput, s.totalOutput);
    SumAfter(s.log, x, InputOf);
    SumAfter(s.log, x, OutputOf);
    assert forall i | 0 <= i < |s.log| :: t.log[i] == s.log[i];
    assert LastReply(t, |s.log|);
  }

  lemma WeakerAttempt(s: State)
    requires Inv(s) && AttemptAt(s.pc) <= MAX_LLM_RETRIES
    ensures Base(s, MAX_LLM_RETRIES)
  {
  }

  lemma ContinueKeeps(s: State)
    requires Inv(s) && Enabled(s, Continue)
    ensures Inv(Resumption(s, Continue))
  {
    if s.pc.reply.value == Reject {
      ToolOverKeeps(s, s.pc.response, s.pc.k, s.pc.answers, true);
    } else {
      EntryKeeps(s, Resumption(s, Continue), Ran(s.calls, Tools(s.pc.response.content)[s.pc.k]));
    }
  }

  lemma PersistedKeeps(s: State, r: Response)
    requires Base(s, MAX_LLM_RETRIES)
    ensures Inv(AfterPersist(s, r))
  {
    if r.endTurn || Tools(r.content) == [] {
      QuietKeeps(s, AfterPersist(s, r));
    } else {
      NextToolKeeps(s, r, 0, []);
    }
  }

  lemma ToolDoneKeeps(s: State, r: Response, k: nat, answers: seq<Answer>, isError: bool, secret: bool)
    requires Base(s, MAX_LLM_RETRIES) && k < |Tools(r.content)|
    ensures var noted := if secret then Note(s, ErrorNote("Secret detected")) else s;
            Inv(ToolOver(noted, r, k, answers, isError))
  {
    var noted := if secret then Note(s, ErrorNote("Secret detected")) else s;
    QuietKeeps(s, noted);
    ToolOverKeeps(noted, r, k, answers, isError);
  }

  lemma BuiltKeeps(s: State)
    requires Base(s, MAX_LLM_RETRIES)
    ensures Inv(LoopTop(s.(messages := [UserPrompt])))
  {
    QuietKeeps(s, s.(messages := [UserPrompt]));
    LoopTopKeeps(s.(messages := [UserPrompt]));
  }

  lemma ResumptionKeeps(s: State, i: Input)
    requires Inv(s) && Enabled(s, i)
    ensures Inv(Resumption(s, i))
  {
    WeakerAttempt(s);
    if i.PromptBuilt? {
      BuiltKeeps(s);
    } else if i.Resumed? {
      StartKeeps(s);
    } else if i.Reply? {
      CallReturnsKeeps(s, i.response);
    } else if i.BackoffOver? {
      CallKeeps(s, s.pc.attempt + 1);
    } else if i.Persisted? {
      PersistedKeeps(s, s.pc.response);
    } else if i.Continue? {
      ContinueKeeps(s);
    } else if i.ToolDone? {
      ToolDoneKeeps(s, s.pc.response, s.pc.k, s.pc.answers, i.isError, i.secret);
    } else if i.Fails? {
      FailsKeeps(s, s.pc.attempt, i.transient);
    } else {
      FrameKeeps(s, Resumption(s, i));
    }
  }

  lemma FailsKeeps(s: State, attempt: nat, transient: bool)
    requires Inv(s) && s.pc == Calling(attempt)
    ensures Inv(CallFails(s, attempt, transient))
  {
    SameLogKeeps(s, CallFails(s, attempt, transient));
  }

  lemma RespondKeeps(s: State, actionId: nat, reply: AgentTypes.Reply)
    requires Inv(s)
    ensures Inv(Outside(s, Respond(actionId, reply)))
  {
    var t := Outside(s, Respond(actionId, reply));
    if t.log != s.log {
      LogKeeps(s, t, Answered(actionId, reply));
      assert forall i | 0 <= i < |s.log| :: t.log[i] == s.log[i];
    }
  }

  /** A step that leaves counts, totals and log alone, and the position but for what it waits for. */
  lemma FrameKeeps(s: State, t: State)
    requires Inv(s) && t.log == s.log && t.limits == s.limits && t.iteration == s.iteration
    requires t.totalInput == s.totalInput && t.totalOutput == s.totalOutput
    requires t.pc == s.pc || (s.pc.Suspended? && t.pc.Suspended?)
             || (!t.pc.Suspended? && !t.pc.Calling? && !t.pc.Backoff? && AttemptAt(s.pc) <= MAX_LLM_RETRIES)
    ensures Inv(t)
  {
    SameLogKeeps(s, t);
  }

  lemma OutsideKeeps(s: State, i: Input)
    requires Inv(s)
    ensures Inv(Outside(s, i))
  {
    if i.Respond? {
      RespondKeeps(s, i.actionId, i.reply);
    } else {
      FrameKeeps(s, Outside(s, i));
    }
  }

  lemma StepKeeps(s: State, i: Input)
    requires Inv(s)
    ensures Inv(Step(s, i))
  {
    if Enabled(s, i) {
      ResumptionKeeps(s, i);
    } else {
      OutsideKeeps(s, i);
    }
  }

  lemma Always(limits: Limits, present: bool, inputs: seq<Input>, n: nat)
    requires n <= |inputs|
    ensures Inv(Run(limits, present, inputs, n)) && Run(limits, present, inputs, n).limits == limits
  {
    var inv := (s: State) => Inv(s) && s.limits == limits;
    forall s, i | inv(s) ensures inv(Step(s, i)) {
      StepKeeps(s, i);
      LimitsStay(s, i);
    }
    AlongKeeps(Step, Init(limits, present), inputs, n, inv);
  }

  lemma ToolsLeaveLimits(s: State, r: Response, k: nat, answers: seq<Answer>)
    ensures NextTool(s, r, k, answers).limits == s.limits
  {
  }

  lemma ToolOverLeavesLimits(s: State, r: Response, k: nat, answers: seq<Answer>, isError: bool)
    requires k < |Tools(r.content)|
    ensures ToolOver(s, r, k, answers, isError).limits == s.limits
  {
    var id := Tools(r.content)[k].id;
    ToolsLeaveLimits(Note(s, ToolResult(id, isError)), r, k + 1, answers + [Answer(id, isError)]);
  }

  lemma ResumptionLeavesLimits(s: State, i: Input)
    requires Enabled(s, i)
    ensures Resumption(s, i).limits == s.limits
  {
    if i.Persisted? {
      ToolsLeaveLimits(s, s.pc.response, 0, []);
    } else if i.Continue? {
      ToolOverLeavesLimits(s, s.pc.response, s.pc.k, s.pc.answers, true);
    } else if i.ToolDone? {
      var noted := if i.secret then Note(s, ErrorNote("Secret detected")) else s;
      ToolOverLeavesLimits(noted, s.pc.response, s.pc.k, s.pc.answers, i.isError);
    }
  }

  lemma OutsideLeavesLimits(s: State, i: Input)
    ensures Outside(s, i).limits == s.limits
  {
  }

  lemma LimitsStay(s: State, i: Input)
    ensures Step(s, i).limits == s.limits
  {
    if Enabled(s, i) {
      ResumptionLeavesLimits(s, i);
    } else {
      OutsideLeavesLimits(s, i);
    }
  }

  // ----- What a run never exceeds -----

  /** Every LLM call of every run is one of at most three attempts of its iteration, no two
      calls share iteration and attempt, and no call starts once a budget is spent. */
  lemma {:induction false} CallsStayWithinLimits(limits: Limits, present: bool, inputs: seq<Input>)
    ensures CallsOk(limits, Run(limits, present, inputs, |inputs|).log)
  {
    Always(limits, present, inputs, |inputs|);
  }

  /** The totals are the sums of all usages, and they pass a budget by less than the last
      reply's usage. */
  lemma {:induction false} OvershootIsOneReply(limits: Limits, present: bool, inputs: seq<Input>)
    ensures var s := Run(limits, present, inputs, |inputs|);
            && s.totalInput == Sum(s.log, |s.log|, InputOf)
            && s.totalOutput == Sum(s.log, |s.log|, OutputOf)
            && (WithinBudgets(limits, s.totalInput, s.totalOutput)
                || exists e :: LastReply(s, e) && WithinBudgets(limits, s.log[e].inputBefore, s.log[e].outputBefore))
  {
    Always(limits, present, inputs, |inputs|);
    var s := Run(limits, present, inputs, |inputs|);
    if e :| LastReply(s, e) {
      assert CallOk(limits, s.log[e]);
    }
  }
}

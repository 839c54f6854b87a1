/** Why a run ends, and that it ends then: over every run. */
module AgentEnding {
  import opened AgentTypes
  import opened AgentRun
  import opened Traces
  import opened Wrappers

  // ----- What a reply asks for -----

  /** The tools of a reply are its tool uses in order, the texts that are recorded are its text blocks in
      order, and nothing else. */
  lemma BlocksInOrder(a: seq<Block>, b: seq<Block>, x: Block)
    ensures Tools(a + b) == Tools(a) + Tools(b) && Deltas(a + b) == Deltas(a) + Deltas(b)
    ensures x.ToolUse? ==> Tools([x]) == [x.tool] && Deltas([x]) == []
    ensures x.Text? ==> Tools([x]) == [] && Deltas([x]) == [TextDelta(x.text)]
  {
    ToolsConcat(a, b);
    DeltasConcat(a, b);
  }

  lemma {:induction false} ToolsConcat(a: seq<Block>, b: seq<Block>)
    ensures Tools(a + b) == Tools(a) + Tools(b)
  {
    if a == [] {
      assert a + b == b;
    } else {
      ToolsConcat(a[1..], b);
      assert (a + b)[1..] == a[1..] + b;
    }
  }

  lemma {:induction false} DeltasConcat(a: seq<Block>, b: seq<Block>)
    ensures Deltas(a + b) == Deltas(a) + Deltas(b)
  {
    if a == [] {
      assert a + b == b;
    } else {
      DeltasConcat(a[1..], b);
      assert (a + b)[1..] == a[1..] + b;
    }
  }

  /** The model has nothing more to do: it ends its turn, or uses no tool. */
  ghost predicate Final(r: Response) {
    r.endTurn || forall i | 0 <= i < |r.content| :: !r.content[i].ToolUse?
  }

  lemma {:induction false} NoToolUse(content: seq<Block>)
    ensures Tools(content) == [] <==> forall i | 0 <= i < |content| :: !content[i].ToolUse?
  {
    if content != [] {
      NoToolUse(content[1..]);
      assert forall i | 0 < i < |content| :: content[i] == content[1..][i - 1];
    }
  }

  // ----- The invariant -----

  /** The executor does something: it calls the model, asks the user, or runs a tool. */
  predicate IsWork(e: Entry) {
    e.Called? || e.Replied? || e.Minted? || e.Ran?
  }

  ghost predicate NoWorkAfter(log: seq<Entry>, e: int) {
    forall d | 0 <= d < |log| && e < d :: !IsWork(log[d])
  }

  ghost predicate IsFinal(log: seq<Entry>, e: int) {
    0 <= e < |log| && log[e].Replied? && Final(log[e].response)
  }

  ghost predicate Open(log: seq<Entry>) {
    forall e :: !IsFinal(log, e)
  }

  ghost predicate FinalIsLast(log: seq<Entry>) {
    forall e | IsFinal(log, e) :: NoWorkAfter(log, e)
  }

  ghost predicate LastReplyAt(log: seq<Entry>, e: int, r: Response) {
    0 <= e < |log| && log[e].Replied? && log[e].response == r && NoWorkAfter(log, e)
  }

  ghost predicate LastReplyIs(log: seq<Entry>, r: Response) {
    exists e :: LastReplyAt(log, e, r)
  }

  ghost predicate FinalReply(log: seq<Entry>) {
    exists e :: IsFinal(log, e)
  }

  /** Interrupted, at a limit, or through with what the model asked for. */
  ghost predicate HasReason(s: State) {
    || s.interrupted.Some?
    || s.iteration as real >= s.limits.maxIterations
    || (s.limits.maxInputTokens.Some? && 0 < s.limits.maxInputTokens.value <= s.totalInput)
    || (s.limits.maxOutputTokens.Some? && 0 < s.limits.maxOutputTokens.value <= s.totalOutput)
    || FinalReply(s.log)
  }

  ghost predicate Ended(s: State, failed: bool) {
    FinalIsLast(s.log) && (!failed ==> HasReason(s))
  }

  ghost predicate Inv(s: State) {
    match s.pc
    case Persisting(r) => FinalIsLast(s.log) && LastReplyIs(s.log, r)
    case Saving(failed) => Ended(s, failed)
    case Finished(failed) => Ended(s, failed)
    case _ => Open(s.log)
  }

  // ----- One entry more -----

  lemma OpenGrows(log: seq<Entry>, x: Entry)
    requires Open(log) && !x.Replied?
    ensures Open(log + [x])
  {
    forall e ensures !IsFinal(log + [x], e) {
      if 0 <= e < |log| {
        assert (log + [x])[e] == log[e] && !IsFinal(log, e);
      }
    }
  }

  lemma OpenReplies(log: seq<Entry>, x: Entry)
    requires Open(log) && x.Replied?
    ensures FinalIsLast(log + [x]) && LastReplyIs(log + [x], x.response)
  {
    var more := log + [x];
    assert forall e | 0 <= e < |log| :: more[e] == log[e];
    assert forall e | 0 <= e < |log| :: IsFinal(more, e) <==> IsFinal(log, e);
    assert LastReplyAt(more, |log|, x.response);
  }

  lemma AnswerGrows(log: seq<Entry>, x: Entry)
    requires x.Answered?
    ensures FinalIsLast(log) ==> FinalIsLast(log + [x])
    ensures FinalReply(log) ==> FinalReply(log + [x])
    ensures forall r | LastReplyIs(log, r) :: LastReplyIs(log + [x], r)
  {
    var more := log + [x];
    assert forall e | 0 <= e < |log| :: more[e] == log[e];
    if FinalIsLast(log) {
      forall e | IsFinal(more, e) ensures NoWorkAfter(more, e) {
        assert IsFinal(log, e);
      }
    }
    if FinalReply(log) {
      var e :| IsFinal(log, e);
      assert IsFinal(more, e);
    }
    forall r | LastReplyIs(log, r) ensures LastReplyIs(more, r) {
      var e :| LastReplyAt(log, e, r);
      assert LastReplyAt(more, e, r);
    }
  }

  lemma NotFinalIsOpen(log: seq<Entry>, r: Response)
    requires FinalIsLast(log) && LastReplyIs(log, r) && !Final(r)
    ensures Open(log)
  {
    var e :| LastReplyAt(log, e, r);
    forall d ensures !IsFinal(log, d) {
      if IsFinal(log, d) {
        assert NoWorkAfter(log, d);
        assert d != e && IsWork(log[e]) && IsWork(log[d]);
      }
    }
  }

  // ----- The segments of the executor -----

  lemma OpenIsLast(log: seq<Entry>)
    requires Open(log)
    ensures FinalIsLast(log)
  {
  }

  lemma CallKeeps(s: State, attempt: nat)
    requires Open(s.log)
    ensures Inv(StartCall(s, attempt))
  {
    OpenGrows(s.log, Called(s.messages, s.iteration, attempt, s.totalInput, s.totalOutput));
  }

  lemma StartKeeps(s: State)
    requires Open(s.log)
    ensures Inv(StartIteration(s))
  {
    CallKeeps(Note(s.(iteration := s.iteration + 1), IterationStart(s.iteration + 1)), 1);
  }

  lemma LoopTopKeeps(s: State)
    requires Open(s.log)
    ensures Inv(LoopTop(s))
  {
    OpenIsLast(s.log);
    if s.interrupted.None? && LimitReached(s).None? && !s.paused {
      StartKeeps(s);
    }
  }

  lemma EndToolsKeeps(s: State, answers: seq<Answer>)
    requires Open(s.log)
    ensures Inv(EndTools(s, answers))
  {
    var told := if answers == [] then s else s.(messages := s.messages + [ToolResults(answers)]);
    LoopTopKeeps(Note(told, IterationEnd(s.iteration)));
  }

  lemma NextToolKeeps(s: State, r: Response, k: nat, answers: seq<Answer>)
    requires Open(s.log)
    ensures Inv(NextTool(s, r, k, answers))
  {
    var tools := Tools(r.content);
    OpenIsLast(s.log);
    if k >= |tools| || s.interrupted == Some(Hard) {
      EndToolsKeeps(s, answers);
    } else {
      var t := Announce(s, tools[k]);
      OpenGrows(t.log, Minted(t.nextAction, t.calls, tools[k]));
      OpenGrows(t.log, Ran(t.calls, tools[k]));
    }
  }

  lemma ToolOverKeeps(s: State, r: Response, k: nat, answers: seq<Answer>, isError: bool)
    requires Open(s.log) && k < |Tools(r.content)|
    ensures Inv(ToolOver(s, r, k, answers, isError))
  {
    var id := Tools(r.content)[k].id;
    NextToolKeeps(Note(s, ToolResult(id, isError)), r, k + 1, answers + [Answer(id, isError)]);
  }

  lemma PersistedKeeps(s: State, r: Response)
    requires FinalIsLast(s.log) && LastReplyIs(s.log, r)
    ensures Inv(AfterPersist(s, r))
  {
    NoToolUse(r.content);
    if r.endTurn || Tools(r.content) == [] {
      var e :| LastReplyAt(s.log, e, r);
      assert IsFinal(s.log, e);
    } else {
      NotFinalIsOpen(s.log, r);
      NextToolKeeps(s, r, 0, []);
    }
  }

  lemma ContinueKeeps(s: State)
    requires Inv(s) && Enabled(s, Continue)
    ensures Inv(Resumption(s, Continue))
  {
    var Asking(r, k, answers, _, reply) := s.pc;
    if reply.value == Reject {
      ToolOverKeeps(s, r, k, answers, true);
    } else {
      OpenGrows(s.log, Ran(s.calls, Tools(r.content)[k]));
    }
  }

  lemma ResumptionKeeps(s: State, i: Input)
    requires Inv(s) && Enabled(s, i)
    ensures Inv(Resumption(s, i))
  {
    match i
    case PromptBuilt => LoopTopKeeps(s.(messages := [UserPrompt]));
    case Resumed => StartKeeps(s);
    case Reply(r) => OpenReplies(s.log, Replied(r, s.totalInput, s.totalOutput));
    case Fails(_) => OpenIsLast(s.log);
    case BackoffOver => CallKeeps(s, s.pc.attempt + 1);
    case Persisted => PersistedKeeps(s, s.pc.response);
    case Continue => ContinueKeeps(s);
    case ToolDone(isError, secret) =>
      var noted := if secret then Note(s, ErrorNote("Secret detected")) else s;
      ToolOverKeeps(noted, s.pc.response, s.pc.k, s.pc.answers, isError);
    case _ =>
  }

  lemma QuietKeeps(s: State, t: State)
    requires Inv(s) && t.log == s.log && t.limits == s.limits && t.iteration == s.iteration
    requires t.totalInput == s.totalInput && t.totalOutput == s.totalOutput
    requires s.interrupted.Some? ==> t.interrupted.Some?
    requires t.pc == s.pc || (s.pc.Asking? && t.pc.Asking?) || (s.pc.Suspended? && t.pc.Suspended?)
    ensures Inv(t)
  {
  }

  lemma RespondKeeps(s: State, actionId: nat, reply: AgentTypes.Reply)
    requires Inv(s) && s.present && CanResolve(s.session, actionId)
    ensures Inv(Outside(s, Respond(actionId, reply)))
  {
    AnswerGrows(s.log, Answered(actionId, reply));
    if Open(s.log) {
      OpenGrows(s.log, Answered(actionId, reply));
    }
  }

  lemma StepKeeps(s: State, i: Input)
    requires Inv(s)
    ensures Inv(Step(s, i))
  {
    if Enabled(s, i) {
      ResumptionKeeps(s, i);
    } else if i.Respond? {
      if s.present && CanResolve(s.session, i.actionId) {
        RespondKeeps(s, i.actionId, i.reply);
      }
    } else {
      QuietKeeps(s, Outside(s, i));
    }
  }

  lemma Always(limits: Limits, present: bool, inputs: seq<Input>)
    ensures Inv(Run(limits, present, inputs, |inputs|))
  {
    forall s, i | Inv(s) ensures Inv(Step(s, i)) {
      StepKeeps(s, i);
    }
    AlongKeeps(Step, Init(limits, present), inputs, |inputs|, s => Inv(s));
  }

  // ----- The results -----

  /** Once a reply ends the turn or uses no tool, the run calls the model, asks the user and runs a tool
      no more. */
  lemma {:induction false} FinalReplyEndsRun(limits: Limits, present: bool, inputs: seq<Input>, e: nat, d: nat)
    requires var log := Run(limits, present, inputs, |inputs|).log;
             && e < d < |log| && log[e].Replied?
             && (log[e].response.endTurn || forall i | 0 <= i < |log[e].response.content| :: log[e].response.content[i].Text?)
    ensures Run(limits, present, inputs, |inputs|).log[d].Answered?
  {
    Always(limits, present, inputs);
    var s := Run(limits, present, inputs, |inputs|);
    assert forall i | 0 <= i < |s.log[e].response.content| :: s.log[e].response.content[i].Text? <==> !s.log[e].response.content[i].ToolUse?;
    assert IsFinal(s.log, e);
    assert NoWorkAfter(s.log, e);
    assert !IsWork(s.log[d]);
  }

  /** A run that has ended without failing was interrupted, has reached a limit, or has had such a reply. */
  lemma {:induction false} EndsForAReason(limits: Limits, present: bool, inputs: seq<Input>)
    requires Run(limits, present, inputs, |inputs|).pc in {Saving(false), Finished(false)}
    ensures HasReason(Run(limits, present, inputs, |inputs|))
  {
    Always(limits, present, inputs);
  }

  /** A call that fails is tried again if the failure is a passing one and fewer than three attempts were
      made; otherwise the run fails, and says so. */
  lemma FailsWhen(s: State, transient: bool)
    requires s.pc.Calling? && s.present
    ensures var t := Step(s, Fails(transient));
            if transient && s.pc.attempt != 3 then t == s.(pc := Backoff(s.pc.attempt))
            else && t.pc == Finished(true) && t.session.status == Failed
                 && t.session.events == s.session.events + [
                      ErrorNote("LLM call failed after retries"),
                      StatusChange(Failed, Some("LLM call failed after retries"))]
  {
  }

  /** After the wait the same request is sent again, as the next attempt. */
  lemma RetriesNext(s: State)
    requires s.pc.Backoff? && s.present
    ensures var t, next := Step(s, BackoffOver), s.pc.attempt + 1;
            && t.pc == Calling(next) && t.messages == s.messages && t.iteration == s.iteration
            && t.session.events == s.session.events + [Thinking(next)]
  {
  }

  /** A run begins by showing that it runs, and sends the prompt alone as its first request. */
  lemma FirstRequest(limits: Limits)
    requires limits.maxIterations > 0.0
    ensures var s := Step(Step(Init(limits, true), Begin), PromptBuilt);
            && s.messages == [UserPrompt]
            && s.session.events == [StatusChange(Running, None), IterationStart(1), Thinking(1)]
            && (s.pc == Calling(1) && s.iteration == 1)
  {
  }

  /** The executor holds these answers, or has put them into the conversation. */
  ghost predicate Carries(s: State, answers: seq<Answer>) {
    if s.pc.Asking? || s.pc.Executing? then s.pc.answers == answers
    else s.pc == Saving(true) || (s.messages != [] && s.messages[|s.messages| - 1] == ToolResults(answers))
  }

  /** A tool that is done is reported with its outcome, behind a warning if its output held a secret, and
      answered with it. */
  lemma ToolIsReported(s: State, isError: bool, secret: bool)
    requires s.pc.Executing? && s.pc.k < |Tools(s.pc.response.content)| && s.present
    ensures var id, t := Tools(s.pc.response.content)[s.pc.k].id, Step(s, ToolDone(isError, secret));
            var warned := s.session.events + if secret then [ErrorNote("Secret detected")] else [];
            && warned + [ToolResult(id, isError)] <= t.session.events
            && Carries(t, s.pc.answers + [Answer(id, isError)])
  {
    var noted := if secret then Note(s, ErrorNote("Secret detected")) else s;
    OverIsReported(noted, s.pc.response, s.pc.k, s.pc.answers, isError);
  }

  /** A tool the user said no to, or nothing, is reported and answered as an error. */
  lemma RejectionIsReported(s: State)
    requires s.pc.Asking? && s.pc.k < |Tools(s.pc.response.content)| && s.pc.reply == Some(Reject) && s.present
    ensures var id, t := Tools(s.pc.response.content)[s.pc.k].id, Step(s, Continue);
            && s.session.events + [ToolResult(id, true)] <= t.session.events
            && Carries(t, s.pc.answers + [Answer(id, true)])
  {
    OverIsReported(s, s.pc.response, s.pc.k, s.pc.answers, true);
  }

  lemma OverIsReported(s: State, r: Response, k: nat, answers: seq<Answer>, isError: bool)
    requires k < |Tools(r.content)| && s.present
    ensures var id, t := Tools(r.content)[k].id, ToolOver(s, r, k, answers, isError);
            && s.session.events + [ToolResult(id, isError)] <= t.session.events
            && Carries(t, answers + [Answer(id, isError)])
  {
    var id := Tools(r.content)[k].id;
    EventsGrow(Note(s, ToolResult(id, isError)), r, k + 1, answers + [Answer(id, isError)]);
    NextToolCarries(Note(s, ToolResult(id, isError)), r, k + 1, answers + [Answer(id, isError)]);
  }

  lemma NextToolCarries(s: State, r: Response, k: nat, answers: seq<Answer>)
    requires answers != []
    ensures Carries(NextTool(s, r, k, answers), answers)
  {
    var tools := Tools(r.content);
    if k >= |tools| || s.interrupted == Some(Hard) {
      LoopTopLeaves(Note(s.(messages := s.messages + [ToolResults(answers)]), IterationEnd(s.iteration)));
    }
  }

  lemma LoopTopLeaves(s: State)
    ensures LoopTop(s).messages == s.messages && !LoopTop(s).pc.Asking? && !LoopTop(s).pc.Executing?
  {
  }

  lemma LoopTopGrows(s: State)
    ensures s.session.events <= LoopTop(s).session.events
  {
  }

  lemma EventsGrow(s: State, r: Response, k: nat, answers: seq<Answer>)
    ensures s.session.events <= NextTool(s, r, k, answers).session.events
  {
    var tools := Tools(r.content);
    if k >= |tools| || s.interrupted == Some(Hard) {
      var told := if answers == [] then s else s.(messages := s.messages + [ToolResults(answers)]);
      LoopTopGrows(Note(told, IterationEnd(s.iteration)));
    } else {
      var called := Announce(s, tools[k]);
      assert s.session.events <= called.session.events;
      assert called.session.events <= Crash(called).session.events;
    }
  }
}

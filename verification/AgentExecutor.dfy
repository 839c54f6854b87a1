/** The agent executor itself (src/agent/agent-executor.ts): the object whose fields the run
    updates. An asynchronous function is a chain of segments between awaits; each segment is a
    method here, and each is proved to be the step of the transition system it stands for. */
module AgentExecutor {
  import opened AgentTypes
  import opened AgentRun
  import opened SessionManager
  import opened Wrappers

  class AgentExecutor {
    const limits: Limits
    const sessionId: string
    const manager: AgentSessionManager

    var messages: seq<Message>
    var iteration: nat
    var totalInputTokens: nat
    var totalOutputTokens: nat
    var interrupted: Option<Break>
    var paused: bool
    var alwaysApprovedTools: set<string>
    var awaiting: Pc
    var nextAction: nat

    ghost var calls: nat
    ghost var log: seq<Entry>
    ghost var gone: Session

    constructor (manager: AgentSessionManager, sessionId: string, limits: Limits)
      requires manager.Valid()
      ensures this.manager == manager && this.sessionId == sessionId && this.limits == limits
      ensures sessionId in manager.sessions && manager.sessions[sessionId].View() == NEW_SESSION ==>
                View() == Init(limits, true)
    {
      this.manager, this.sessionId, this.limits := manager, sessionId, limits;
      messages, iteration, totalInputTokens, totalOutputTokens := [], 0, 0, 0;
      interrupted, paused, alwaysApprovedTools := None, false, {};
      awaiting, nextAction := Created, 0;
      calls, log, gone := 0, [], NEW_SESSION;
    }

    ghost function View(): State
      reads this, manager, manager.sessions.Values
    {
      var present := sessionId in manager.sessions;
      State(limits, awaiting, messages, iteration, totalInputTokens, totalOutputTokens, interrupted, paused,
            alwaysApprovedTools, present, if present then manager.sessions[sessionId].View() else gone,
            nextAction, calls, log)
    }

    method EmitEvent(p: Payload)
      requires manager.Valid()
      modifies manager.Target(sessionId)
      ensures manager.Valid() && View() == Note(old(View()), p)
    {
      manager.EmitEvent(sessionId, p);
    }

    method UpdateStatus(status: Status, error: Option<string>)
      requires manager.Valid()
      modifies manager.Target(sessionId)
      ensures manager.Valid() && View() == Mark(old(View()), status, error)
    {
      manager.UpdateStatus(sessionId, status, error);
    }

    /** `interrupt`: signals from outside, taken at any await after construction. */
    method Interrupt(signal: AgentRun.Signal)
      requires manager.Valid()
      modifies this, manager.Target(sessionId)
      ensures manager.Valid() && View() == Sent(old(View()), signal)
    {
      match signal
      case Pause =>
        paused := true;
        UpdateStatus(Paused, None);
      case Resume =>
        paused := false;
        if awaiting.Suspended? {
          awaiting := Suspended(true);
        }
        UpdateStatus(Running, None);
      case Interrupt(how) =>
        interrupted := Some(how);
    }

    /** `shouldTerminate`: whether the loop ends here; a limit that ends it is announced. */
    method ShouldTerminate() returns (stop: bool)
      requires manager.Valid()
      modifies manager.Target(sessionId)
      ensures manager.Valid()
      ensures var s := old(View());
              && (stop <==> s.interrupted.Some? || LimitReached(s).Some?)
              && View() == if s.interrupted.None? && LimitReached(s).Some?
                           then Note(s, ErrorNote(LimitReached(s).value)) else s
    {
      if interrupted.Some? {
        return true;
      }
      if iteration as real >= limits.maxIterations {
        EmitEvent(ErrorNote("Iteration limit reached"));
        return true;
      }
      if limits.maxInputTokens.Some? && limits.maxInputTokens.value != 0
         && totalInputTokens >= limits.maxInputTokens.value {
        EmitEvent(ErrorNote("Input token budget exceeded"));
        return true;
      }
      if limits.maxOutputTokens.Some? && limits.maxOutputTokens.value != 0
         && totalOutputTokens >= limits.maxOutputTokens.value {
        EmitEvent(ErrorNote("Output token budget exceeded"));
        return true;
      }
      return false;
    }

    method StartCall(attempt: nat)
      requires manager.Valid()
      modifies this, manager.Target(sessionId)
      ensures manager.Valid() && View() == AgentRun.StartCall(old(View()), attempt)
    {
      EmitEvent(Thinking(attempt));
      awaiting := Calling(attempt);
      log := log + [Called(messages, iteration, attempt, totalInputTokens, totalOutputTokens)];
    }

    method BeginIteration()
      requires manager.Valid()
      modifies this, manager.Target(sessionId)
      ensures manager.Valid()
      ensures var s := old(View());
              View() == Note(s.(iteration := s.iteration + 1), IterationStart(s.iteration + 1))
    {
      iteration := iteration + 1;
      EmitEvent(IterationStart(iteration));
    }

    method StartIteration()
      requires manager.Valid()
      modifies this, manager.Target(sessionId)
      ensures manager.Valid() && View() == AgentRun.StartIteration(old(View()))
    {
      BeginIteration();
      StartCall(1);
    }

    /** Final status, done event, and on to the checkpoint. */
    method Finish()
      requires manager.Valid()
      modifies this, manager.Target(sessionId)
      ensures manager.Valid() && View() == AgentRun.Finish(old(View()))
    {
      if interrupted.Some? {
        UpdateStatus(Stopped, None);
      } else {
        UpdateStatus(Completed, None);
      }
      EmitEvent(Done(iteration, totalInputTokens, totalOutputTokens, interrupted.Some?));
      awaiting := Saving(false);
    }

    /** The head of the main loop. */
    method LoopTop()
      requires manager.Valid()
      modifies this, manager.Target(sessionId)
      ensures manager.Valid() && View() == AgentRun.LoopTop(old(View()))
    {
      var stop := ShouldTerminate();
      if stop {
        Finish();
      } else if paused {
        awaiting := Suspended(false);
      } else {
        StartIteration();
      }
    }

    /** The reply of the model: totals, text deltas, and the history. */
    method TakeReply(r: Response)
      requires manager.Valid()
      modifies this, manager.Target(sessionId)
      ensures manager.Valid() && View() == CallReturns(old(View()), r)
    {
      CountTokens(r);
      EmitDeltas(r.content);
      AwaitPersist(r);
    }

    method AwaitPersist(r: Response)
      modifies this
      ensures var s := old(View()); View() == s.(messages := s.messages + [Assistant(r.content)], pc := Persisting(r))
    {
      messages := messages + [Assistant(r.content)];
      awaiting := Persisting(r);
    }

    method CountTokens(r: Response)
      modifies this
      ensures var s := old(View());
              View() == s.(totalInput := s.totalInput + r.inputTokens, totalOutput := s.totalOutput + r.outputTokens,
                           log := s.log + [Replied(r, s.totalInput, s.totalOutput)])
    {
      log := log + [Replied(r, totalInputTokens, totalOutputTokens)];
      totalInputTokens := totalInputTokens + r.inputTokens;
      totalOutputTokens := totalOutputTokens + r.outputTokens;
    }

    /** `for (const block of assistantContent)`, as far as text blocks are concerned. */
    method EmitDeltas(content: seq<Block>)
      requires manager.Valid()
      modifies manager.Target(sessionId)
      ensures manager.Valid() && View() == NoteAll(old(View()), Deltas(content))
    {
      ghost var before := View();
      ghost var noted: seq<Payload> := [];
      var i := 0;
      while i < |content|
        invariant i <= |content| && manager.Valid()
        invariant noted + Deltas(content[i..]) == Deltas(content)
        invariant View() == NoteAll(before, noted)
      {
        assert content[i..][0] == content[i] && content[i..][1..] == content[i + 1..];
        if content[i].Text? {
          EmitEvent(TextDelta(content[i].text));
          NotedOneMore(before, noted, TextDelta(content[i].text));
          noted := noted + [TextDelta(content[i].text)];
        }
        i := i + 1;
      }
    }

    static lemma NotedOneMore(s: State, noted: seq<Payload>, p: Payload)
      ensures Note(NoteAll(s, noted), p) == NoteAll(s, noted + [p])
    {
      assert s.session.events + noted + [p] == s.session.events + (noted + [p]);
    }

    /** A failed attempt: back off while retries are left and the error is transient. */
    method TakeFailure(attempt: nat, transient: bool)
      requires manager.Valid()
      modifies this, manager.Target(sessionId)
      ensures manager.Valid() && View() == CallFails(old(View()), attempt, transient)
    {
      if !transient || attempt == MAX_LLM_RETRIES {
        EmitEvent(ErrorNote(LLM_FAILED));
        UpdateStatus(Failed, Some(LLM_FAILED));
        awaiting := Finished(true);
      } else {
        awaiting := Backoff(attempt);
      }
    }

    method Crash()
      requires manager.Valid()
      modifies this, manager.Target(sessionId)
      ensures manager.Valid() && View() == AgentRun.Crash(old(View()))
    {
      EmitEvent(ErrorNote("error"));
      UpdateStatus(Failed, Some("error"));
      awaiting := Saving(true);
    }

    method Execute(r: Response, k: nat, answers: seq<Answer>)
      requires k < |Tools(r.content)|
      modifies this
      ensures View() == AgentRun.Execute(old(View()), r, k, answers)
    {
      awaiting := Executing(r, k, answers);
      log := log + [Ran(calls, Tools(r.content)[k])];
    }

    method SetPendingApproval(a: Approval)
      requires manager.Valid()
      modifies manager.Target(sessionId)
      ensures manager.Valid()
      ensures var s := old(View());
              View() == if s.present then s.(session := SetPending(s.session, a)) else s
    {
      manager.SetPendingApproval(sessionId, a);
    }

    /** `requestApproval`: a fresh action id; without a session the answer is already no. */
    method RequestApproval(r: Response, k: nat, answers: seq<Answer>)
      requires manager.Valid() && k < |Tools(r.content)|
      modifies this, manager.Target(sessionId)
      ensures manager.Valid() && View() == Ask(old(View()), r, k, answers)
    {
      var tool := Tools(r.content)[k];
      SetPendingApproval(Approval(nextAction, tool.name));
      AwaitAnswer(r, k, answers, tool);
    }

    method AwaitAnswer(r: Response, k: nat, answers: seq<Answer>, tool: Tool)
      modifies this
      ensures var s := old(View());
              View() == s.(pc := Asking(r, k, answers, s.nextAction, if s.present then None else Some(Reject)),
                           nextAction := s.nextAction + 1, log := s.log + [Minted(s.nextAction, s.calls, tool)])
    {
      awaiting := Asking(r, k, answers, nextAction, if sessionId in manager.sessions then None else Some(Reject));
      log := log + [Minted(nextAction, calls, tool)];
      nextAction := nextAction + 1;
    }

    method EndTools(answers: seq<Answer>)
      requires manager.Valid()
      modifies this, manager.Target(sessionId)
      ensures manager.Valid() && View() == AgentRun.EndTools(old(View()), answers)
    {
      if |answers| > 0 {
        messages := messages + [ToolResults(answers)];
      }
      EmitEvent(IterationEnd(iteration));
      LoopTop();
    }

    method Announce(t: Tool)
      requires manager.Valid()
      modifies this, manager.Target(sessionId)
      ensures manager.Valid() && View() == AgentRun.Announce(old(View()), t)
    {
      EmitEvent(ToolCall(t.id, t.name));
      calls := calls + 1;
    }

    /** The head of the loop over the tools of a reply. */
    method NextTool(r: Response, k: nat, answers: seq<Answer>)
      requires manager.Valid()
      modifies this, manager.Target(sessionId)
      ensures manager.Valid() && View() == AgentRun.NextTool(old(View()), r, k, answers)
    {
      var tools := Tools(r.content);
      if k >= |tools| || interrupted == Some(Hard) {
        EndTools(answers);
        return;
      }
      Announce(tools[k]);
      match RequiresApproval(tools[k])
      case Throws =>
        Crash();
      case NotNeeded =>
        Execute(r, k, answers);
      case Needed =>
        if tools[k].name in alwaysApprovedTools {
          Execute(r, k, answers);
        } else {
          RequestApproval(r, k, answers);
        }
    }

    method ToolOver(r: Response, k: nat, answers: seq<Answer>, isError: bool)
      requires manager.Valid() && k < |Tools(r.content)|
      modifies this, manager.Target(sessionId)
      ensures manager.Valid() && View() == AgentRun.ToolOver(old(View()), r, k, answers, isError)
    {
      var id := Tools(r.content)[k].id;
      EmitEvent(ToolResult(id, isError));
      NextTool(r, k + 1, answers + [Answer(id, isError)]);
    }

    /** What the run does when what it awaits has happened. */
    method Proceed(i: Input)
      requires manager.Valid() && Enabled(View(), i)
      modifies this, manager.Target(sessionId)
      ensures manager.Valid() && View() == Resumption(old(View()), i)
    {
      if i.Begin? {
        TakeStart();
      } else if i.PromptBuilt? {
        TakePrompt();
      } else if i.Resumed? {
        StartIteration();
      } else if i.Reply? {
        TakeReply(i.response);
      } else if i.Fails? {
        TakeFailure(awaiting.attempt, i.transient);
      } else if i.BackoffOver? {
        StartCall(awaiting.attempt + 1);
      } else if i.Persisted? {
        AfterPersist(awaiting.response);
      } else if i.Continue? {
        AfterApproval();
      } else if i.ToolDone? {
        TakeResult(i.isError, i.secret);
      } else {
        awaiting := Finished(awaiting.failed);
      }
    }

    method TakeStart()
      requires manager.Valid()
      modifies this, manager.Target(sessionId)
      ensures manager.Valid() && View() == Mark(old(View()), Running, None).(pc := Building)
    {
      UpdateStatus(Running, None);
      awaiting := Building;
    }

    method TakePrompt()
      requires manager.Valid()
      modifies this, manager.Target(sessionId)
      ensures manager.Valid() && View() == AgentRun.LoopTop(old(View()).(messages := [UserPrompt]))
    {
      messages := [UserPrompt];
      LoopTop();
    }

    method TakeResult(isError: bool, secret: bool)
      requires manager.Valid() && Enabled(View(), ToolDone(isError, secret))
      modifies this, manager.Target(sessionId)
      ensures manager.Valid() && View() == Resumption(old(View()), ToolDone(isError, secret))
    {
      if secret {
        EmitEvent(ErrorNote("Secret detected"));
      }
      ToolOver(awaiting.response, awaiting.k, awaiting.answers, isError);
    }

    method AfterPersist(r: Response)
      requires manager.Valid()
      modifies this, manager.Target(sessionId)
      ensures manager.Valid() && View() == AgentRun.AfterPersist(old(View()), r)
    {
      if r.endTurn || |Tools(r.content)| == 0 {
        EmitEvent(IterationEnd(iteration));
        Finish();
      } else {
        NextTool(r, 0, []);
      }
    }

    method AfterApproval()
      requires manager.Valid() && Enabled(View(), Continue)
      modifies this, manager.Target(sessionId)
      ensures manager.Valid() && View() == Resumption(old(View()), Continue)
    {
      var Asking(r, k, answers, _, reply) := awaiting;
      if reply.value == Reject {
        ToolOver(r, k, answers, true);
        return;
      }
      if reply.value == AlwaysApprove {
        alwaysApprovedTools := alwaysApprovedTools + {Tools(r.content)[k].name};
      }
      Execute(r, k, answers);
    }

    /** Whether the run is suspended at the await that `i` ends. */
    method Awaits(i: Input) returns (yes: bool)
      ensures yes <==> Enabled(View(), i)
    {
      match i
      case Begin => return awaiting.Created?;
      case PromptBuilt => return awaiting.Building?;
      case Resumed => return awaiting == Suspended(true);
      case Reply(_) => return awaiting.Calling?;
      case Fails(_) => return awaiting.Calling?;
      case BackoffOver => return awaiting.Backoff?;
      case Persisted => return awaiting.Persisting?;
      case Continue =>
        return awaiting.Asking? && awaiting.reply.Some? && awaiting.k < |Tools(awaiting.response.content)|;
      case ToolDone(_, _) => return awaiting.Executing? && awaiting.k < |Tools(awaiting.response.content)|;
      case Saved => return awaiting.Saving?;
      case _ => return false;
    }

    // ----- What happens outside, with the listeners of this executor -----

    /** A stop request; the stop listener, once registered, runs before the status moves. */
    method OnStop()
      requires manager.Valid()
      modifies this, manager.Target(sessionId)
      ensures manager.Valid() && View() == Outside(old(View()), Stop)
    {
      var ok := manager.StopSession(sessionId);
      if ok && !awaiting.Created? {
        interrupted := Some(Hard);
      }
    }

    /** An answer from the user; the approval listener takes the one it waits for. */
    method OnRespond(actionId: nat, reply: AgentTypes.Reply)
      requires manager.Valid()
      modifies this, manager.Target(sessionId)
      ensures manager.Valid() && View() == Outside(old(View()), Respond(actionId, reply))
    {
      var ok := Resolve(actionId, reply);
      if ok {
        Hear(actionId, reply);
      }
    }

    method Resolve(actionId: nat, reply: AgentTypes.Reply) returns (ok: bool)
      requires manager.Valid()
      modifies manager.Target(sessionId)
      ensures manager.Valid()
      ensures var s := old(View());
              && (ok <==> s.present && CanResolve(s.session, actionId))
              && View() == if ok then s.(session := AgentTypes.Resolve(s.session, actionId, reply)) else s
    {
      ok := manager.ResolveApproval(sessionId, actionId, reply);
    }

    /** The approval listener. */
    method Hear(actionId: nat, reply: AgentTypes.Reply)
      modifies this
      ensures var s := old(View());
              View() == s.(log := s.log + [Answered(actionId, reply)],
                           pc := if s.pc.Asking? && s.pc.actionId == actionId && s.pc.reply.None?
                                 then s.pc.(reply := Some(reply)) else s.pc)
    {
      log := log + [Answered(actionId, reply)];
      if awaiting.Asking? && awaiting.actionId == actionId && awaiting.reply.None? {
        awaiting := awaiting.(reply := Some(reply));
      }
    }

    method OnTimeout()
      modifies this
      ensures View() == Outside(old(View()), Timeout)
    {
      if awaiting.Asking? && awaiting.reply.None? {
        awaiting := awaiting.(reply := Some(Reject));
      }
    }

    method OnCleanup()
      requires manager.Valid()
      modifies this, manager
      ensures manager.Valid() && View() == Outside(old(View()), Cleanup)
      ensures manager.sessions.Keys <= old(manager.sessions.Keys)
      ensures forall id | id in manager.sessions :: manager.sessions[id] == old(manager.sessions)[id]
    {
      if sessionId in manager.sessions {
        gone := manager.sessions[sessionId].View();
      }
      manager.CleanupSession(sessionId);
    }

    /** A status written by the interrupt route, which does not reach the executor. */
    method OnRouter(i: Input)
      requires manager.Valid() && (i.RouterPause? || i.RouterResume?)
      modifies manager.Target(sessionId)
      ensures manager.Valid() && View() == Outside(old(View()), i)
    {
      if i.RouterPause? {
        UpdateStatus(Paused, None);
      } else if sessionId in manager.sessions && manager.sessions[sessionId].status == Paused {
        UpdateStatus(Running, None);
      }
    }

    method Happen(i: Input)
      requires manager.Valid() && !Enabled(View(), i)
      modifies this, manager, manager.Target(sessionId)
      ensures manager.Valid() && View() == Outside(old(View()), i)
      ensures manager.sessions.Keys <= old(manager.sessions.Keys)
      ensures forall id | id in manager.sessions :: manager.sessions[id] == old(manager.sessions)[id]
    {
      if i.Stop? {
        OnStop();
      } else if i.Send? {
        if !awaiting.Created? {
          Interrupt(i.signal);
        }
      } else if i.RouterPause? || i.RouterResume? {
        OnRouter(i);
      } else if i.Respond? {
        OnRespond(i.actionId, i.reply);
      } else if i.Timeout? {
        OnTimeout();
      } else if i.Cleanup? {
        OnCleanup();
      } else if i.Feedback? {
        manager.InjectFeedback(sessionId);
      } else if i.InterruptEvent? {
        EmitEvent(InterruptNote);
      }
    }

    /** One input: the run goes on if it awaits it, otherwise it is something outside. */
    method Take(i: Input)
      requires manager.Valid()
      modifies this, manager, manager.Target(sessionId)
      ensures manager.Valid() && View() == Step(old(View()), i)
      ensures manager.sessions.Keys <= old(manager.sessions.Keys)
      ensures forall id | id in manager.sessions :: manager.sessions[id] == old(manager.sessions)[id]
    {
      var awaited := Awaits(i);
      if awaited {
        Proceed(i);
      } else {
        Happen(i);
      }
    }
  }

  /** A new session and its executor. */
  method Launch(sessionId: string, userId: int, now: int, limits: Limits) returns (executor: AgentExecutor)
    ensures fresh(executor) && fresh(executor.manager) && executor.manager.Valid()
    ensures fresh(executor.manager.Target(executor.sessionId))
    ensures executor.View() == Init(limits, true)
  {
    var manager := new AgentSessionManager();
    var session := manager.CreateSession(sessionId, userId, now);
    executor := new AgentExecutor(manager, sessionId, limits);
  }

  /** A registered session and its executor, at a state of the transition system. */
  ghost predicate InState(executor: AgentExecutor, s: State)
    reads executor, executor.manager, executor.manager.sessions.Values
  {
    executor.manager.Valid() && executor.View() == s
  }

  /** The next input of a run. */
  method TakeNext(executor: AgentExecutor, limits: Limits, inputs: seq<Input>, n: nat)
    requires n < |inputs| && InState(executor, AgentRun.Run(limits, true, inputs, n))
    modifies executor, executor.manager, executor.manager.Target(executor.sessionId)
    ensures InState(executor, AgentRun.Run(limits, true, inputs, n + 1))
    ensures executor.manager.sessions.Keys <= old(executor.manager.sessions.Keys)
    ensures forall id | id in executor.manager.sessions ::
              executor.manager.sessions[id] == old(executor.manager.sessions)[id]
  {
    executor.Take(inputs[n]);
    RunStep(limits, true, inputs, n);
  }

  method TakeAll(executor: AgentExecutor, limits: Limits, inputs: seq<Input>)
    requires InState(executor, Init(limits, true))
    modifies executor, executor.manager, executor.manager.Target(executor.sessionId)
    ensures InState(executor, AgentRun.Run(limits, true, inputs, |inputs|))
  {
    var n := 0;
    while n < |inputs|
      invariant n <= |inputs| && InState(executor, AgentRun.Run(limits, true, inputs, n))
      invariant executor.manager.sessions.Keys <= old(executor.manager.sessions.Keys)
      invariant forall id | id in executor.manager.sessions ::
                  executor.manager.sessions[id] == old(executor.manager.sessions)[id]
    {
      TakeNext(executor, limits, inputs, n);
      n := n + 1;
    }
  }

  /** A whole run of a new session: whatever is fed to the objects, their state is the state the
      transition system reaches on the same inputs. */
  method Drive(sessionId: string, userId: int, now: int, limits: Limits, inputs: seq<Input>)
    returns (executor: AgentExecutor)
    ensures executor.manager.Valid()
    ensures executor.View() == AgentRun.Run(limits, true, inputs, |inputs|)
  {
    executor := Launch(sessionId, userId, now, limits);
    TakeAll(executor, limits, inputs);
  }
}

/** Approval safety: which tool calls may run, over every run. */
module AgentApproval {
  import opened AgentTypes
  import opened AgentRun
  import opened Traces
  import opened Wrappers

  // ----- What the log may say -----

  /** Entry `a` mints an action for the call, and entry `b` grants it. */
  ghost predicate Grants(log: seq<Entry>, a: int, b: int, call: nat, name: string) {
    && 0 <= a < b < |log|
    && log[a].Minted? && log[a].call == call && log[a].tool.name == name
    && log[b].Answered? && log[b].actionId == log[a].actionId && log[b].reply != Reject
  }

  /** Entry `a` mints an action for the tool, and entry `b` grants it for good. */
  ghost predicate GrantsAlways(log: seq<Entry>, a: int, b: int, name: string) {
    Grants(log, a, b, if 0 <= a < |log| && log[a].Minted? then log[a].call else 0, name) && log[b].reply == AlwaysApprove
  }

  /** Before entry `e`, the call was granted itself, or its tool was granted for good. */
  ghost predicate Permitted(log: seq<Entry>, e: int, call: nat, name: string) {
    exists a, b | b < e :: Grants(log, a, b, call, name) || GrantsAlways(log, a, b, name)
  }

  ghost predicate AlwaysPermitted(log: seq<Entry>, name: string) {
    exists a, b :: GrantsAlways(log, a, b, name)
  }

  ghost predicate RunsPermitted(log: seq<Entry>) {
    forall e | 0 <= e < |log| && log[e].Ran? ::
      || RequiresApproval(log[e].tool) == NotNeeded
      || (RequiresApproval(log[e].tool) == Needed && Permitted(log, e, log[e].call, log[e].tool.name))
  }

  /** The user is asked only about calls that need it. */
  ghost predicate AsksNeeded(log: seq<Entry>) {
    forall a | 0 <= a < |log| && log[a].Minted? :: RequiresApproval(log[a].tool) == Needed
  }

  /** Action ids are minted once and answered at most once. */
  ghost predicate IdsUsedOnce(log: seq<Entry>, nextAction: nat) {
    && (forall e | 0 <= e < |log| && (log[e].Minted? || log[e].Answered?) :: log[e].actionId < nextAction)
    && (forall d, e | 0 <= d < e < |log| && log[d].Minted? && log[e].Minted? :: log[d].actionId != log[e].actionId)
    && (forall d, e | 0 <= d < e < |log| && log[d].Answered? && log[e].Answered? :: log[d].actionId != log[e].actionId)
  }

  /** No call runs twice, and none runs before it is made. */
  ghost predicate RunsOnce(log: seq<Entry>, calls: nat) {
    && (forall e | 0 <= e < |log| && log[e].Ran? :: log[e].call <= calls)
    && (forall d, e | 0 <= d < e < |log| && log[d].Ran? && log[e].Ran? :: log[d].call != log[e].call)
  }

  ghost predicate LogOk(s: State) {
    && RunsPermitted(s.log) && AsksNeeded(s.log) && IdsUsedOnce(s.log, s.nextAction) && RunsOnce(s.log, s.calls)
    && forall name | name in s.alwaysApproved :: AlwaysPermitted(s.log, name)
  }

  // ----- What the session and the waiting executor hold -----

  ghost predicate Unanswered(log: seq<Entry>, actionId: nat) {
    forall e | 0 <= e < |log| && log[e].Answered? :: log[e].actionId != actionId
  }

  ghost predicate SessionOk(s: State) {
    && (s.session.status == WaitingApproval ==> s.session.pending.Some?)
    && (s.session.pending.Some? ==>
          s.session.pending.value.actionId < s.nextAction && Unanswered(s.log, s.session.pending.value.actionId))
  }

  ghost predicate MintedFor(log: seq<Entry>, a: int, actionId: nat, call: nat, tool: Tool) {
    0 <= a < |log| && log[a] == Minted(actionId, call, tool)
  }

  ghost predicate NotYetRun(log: seq<Entry>, call: nat) {
    forall e | 0 <= e < |log| && log[e].Ran? :: log[e].call < call
  }

  ghost predicate AskOk(s: State) {
    s.pc.Asking? && s.pc.k < |Tools(s.pc.response.content)| ==>
      var tool := Tools(s.pc.response.content)[s.pc.k];
      && NotYetRun(s.log, s.calls)
      && s.pc.actionId < s.nextAction
      && (exists a :: MintedFor(s.log, a, s.pc.actionId, s.calls, tool))
      && (s.pc.reply.Some? && s.pc.reply.value != Reject ==>
            exists a, b :: Grants(s.log, a, b, s.calls, tool.name) && ReplyAt(s, b) == s.pc.reply.value)
  }

  ghost function ReplyAt(s: State, b: int): Reply {
    if 0 <= b < |s.log| && s.log[b].Answered? then s.log[b].reply else Reject
  }

  ghost predicate Base(s: State) {
    LogOk(s) && SessionOk(s)
  }

  ghost predicate Inv(s: State) {
    Base(s) && AskOk(s)
  }

  // ----- Growth of the log -----

  lemma PermitsGrow(log: seq<Entry>, x: Entry)
    ensures forall a, b, call, name :: Grants(log, a, b, call, name) ==> Grants(log + [x], a, b, call, name)
    ensures forall a, b, name :: GrantsAlways(log, a, b, name) ==> GrantsAlways(log + [x], a, b, name)
    ensures forall name :: AlwaysPermitted(log, name) ==> AlwaysPermitted(log + [x], name)
    ensures forall e, call, name :: Permitted(log, e, call, name) ==> Permitted(log + [x], e, call, name)
  {
    assert forall i | 0 <= i < |log| :: (log + [x])[i] == log[i];
    forall name | AlwaysPermitted(log, name) ensures AlwaysPermitted(log + [x], name) {
      var a, b :| GrantsAlways(log, a, b, name);
      assert GrantsAlways(log + [x], a, b, name);
    }
    forall e, call, name | Permitted(log, e, call, name) ensures Permitted(log + [x], e, call, name) {
      var a, b :| b < e && (Grants(log, a, b, call, name) || GrantsAlways(log, a, b, name));
      assert Grants(log + [x], a, b, call, name) || GrantsAlways(log + [x], a, b, name);
    }
  }

  /** An LLM call or its reply in the log changes nothing here. */
  lemma CalmKeeps(s: State, x: Entry)
    requires Base(s) && (x.Called? || x.Replied?)
    ensures Base(s.(log := s.log + [x]))
  {
    PermitsGrow(s.log, x);
  }

  lemma LoopTopKeeps(s: State)
    requires Base(s)
    ensures Inv(LoopTop(s))
  {
    if s.interrupted.None? && LimitReached(s).None? && !s.paused {
      StartKeeps(s);
    }
  }

  lemma StartKeeps(s: State)
    requires Base(s)
    ensures Inv(StartIteration(s))
  {
    CallKeeps(Note(s.(iteration := s.iteration + 1), IterationStart(s.iteration + 1)), 1);
  }

  lemma CallKeeps(s: State, attempt: nat)
    requires Base(s)
    ensures Inv(StartCall(s, attempt))
  {
    CalmKeeps(Note(s, Thinking(attempt)), Called(s.messages, s.iteration, attempt, s.totalInput, s.totalOutput));
  }

  lemma ExecuteKeeps(s: State, r: Response, k: nat, answers: seq<Answer>)
    requires Base(s) && k < |Tools(r.content)| && NotYetRun(s.log, s.calls)
    requires var tool := Tools(r.content)[k];
             || RequiresApproval(tool) == NotNeeded
             || (RequiresApproval(tool) == Needed && Permitted(s.log, |s.log|, s.calls, tool.name))
    ensures Inv(Execute(s, r, k, answers))
  {
    PermitsGrow(s.log, Ran(s.calls, Tools(r.content)[k]));
  }

  lemma AskKeeps(s: State, r: Response, k: nat, answers: seq<Answer>)
    requires Base(s) && k < |Tools(r.content)| && NotYetRun(s.log, s.calls)
    requires RequiresApproval(Tools(r.content)[k]) == Needed
    ensures Inv(Ask(s, r, k, answers))
  {
    var x := Minted(s.nextAction, s.calls, Tools(r.content)[k]);
    PermitsGrow(s.log, x);
    assert MintedFor(s.log + [x], |s.log|, s.nextAction, s.calls, Tools(r.content)[k]);
  }

  lemma CalledKeeps(s: State, tool: Tool)
    requires Base(s)
    ensures var t := Announce(s, tool);
            Base(t) && NotYetRun(t.log, t.calls) && t.alwaysApproved == s.alwaysApproved
  {
  }

  lemma AlwaysIsPermitted(log: seq<Entry>, call: nat, name: string)
    requires AlwaysPermitted(log, name)
    ensures Permitted(log, |log|, call, name)
  {
    var a, b :| GrantsAlways(log, a, b, name);
  }

  lemma NextToolKeeps(s: State, r: Response, k: nat, answers: seq<Answer>)
    requires Base(s)
    ensures Inv(NextTool(s, r, k, answers))
  {
    var tools := Tools(r.content);
    if k >= |tools| || s.interrupted == Some(Hard) {
      EndToolsKeeps(s, answers);
    } else {
      var called := Announce(s, tools[k]);
      CalledKeeps(s, tools[k]);
      match RequiresApproval(tools[k])
      case Throws =>
      case NotNeeded => ExecuteKeeps(called, r, k, answers);
      case Needed =>
        if tools[k].name in s.alwaysApproved {
          AlwaysIsPermitted(called.log, called.calls, tools[k].name);
          ExecuteKeeps(called, r, k, answers);
        } else {
          AskKeeps(called, r, k, answers);
        }
    }
  }

  lemma EndToolsKeeps(s: State, answers: seq<Answer>)
    requires Base(s)
    ensures Inv(EndTools(s, answers))
  {
    var told := if answers == [] then s else s.(messages := s.messages + [ToolResults(answers)]);
    LoopTopKeeps(Note(told, IterationEnd(s.iteration)));
  }

  lemma ToolOverKeeps(s: State, r: Response, k: nat, answers: seq<Answer>, isError: bool)
    requires Base(s) && k < |Tools(r.content)|
    ensures Inv(ToolOver(s, r, k, answers, isError))
  {
    var id := Tools(r.content)[k].id;
    NextToolKeeps(Note(s, ToolResult(id, isError)), r, k + 1, answers + [Answer(id, isError)]);
  }

  lemma ContinueKeeps(s: State)
    requires Inv(s) && Enabled(s, Continue)
    ensures Inv(Resumption(s, Continue))
  {
    var Asking(r, k, answers, _, reply) := s.pc;
    var name := Tools(r.content)[k].name;
    if reply.value == Reject {
      ToolOverKeeps(s, r, k, answers, true);
    } else {
      var m :| MintedFor(s.log, m, s.pc.actionId, s.calls, Tools(r.content)[k]);
      var a, b :| Grants(s.log, a, b, s.calls, name) && ReplyAt(s, b) == reply.value;
      assert reply.value == AlwaysApprove ==> GrantsAlways(s.log, a, b, name);
      var names := if reply.value == AlwaysApprove then {name} else {};
      ExecuteKeeps(s.(alwaysApproved := s.alwaysApproved + names), r, k, answers);
    }
  }

  lemma ResumptionKeeps(s: State, i: Input)
    requires Inv(s) && Enabled(s, i)
    ensures Inv(Resumption(s, i))
  {
    match i
    case PromptBuilt => LoopTopKeeps(s.(messages := [UserPrompt]));
    case Resumed => StartKeeps(s);
    case Reply(r) => CalmKeeps(s, Replied(r, s.totalInput, s.totalOutput));
    case BackoffOver => CallKeeps(s, s.pc.attempt + 1);
    case Persisted =>
      if !s.pc.response.endTurn && Tools(s.pc.response.content) != [] {
        NextToolKeeps(s, s.pc.response, 0, []);
      }
    case Continue => ContinueKeeps(s);
    case ToolDone(isError, secret) =>
      var noted := if secret then Note(s, ErrorNote("Secret detected")) else s;
      ToolOverKeeps(noted, s.pc.response, s.pc.k, s.pc.answers, isError);
    case _ =>
  }

  lemma AskStaysOk(s: State, t: State, actionId: nat, reply: Reply)
    requires AskOk(s) && t.log == s.log + [Answered(actionId, reply)]
    requires t.calls == s.calls && t.nextAction == s.nextAction
    requires t.pc == if s.pc.Asking? && s.pc.actionId == actionId && s.pc.reply.None?
                     then s.pc.(reply := Some(reply)) else s.pc
    ensures AskOk(t)
  {
    PermitsGrow(s.log, Answered(actionId, reply));
    assert t.log[|s.log|] == Answered(actionId, reply);
    if s.pc.Asking? && s.pc.k < |Tools(s.pc.response.content)| {
      var tool := Tools(s.pc.response.content)[s.pc.k];
      var name := tool.name;
      var a :| MintedFor(s.log, a, s.pc.actionId, s.calls, tool);
      assert MintedFor(t.log, a, s.pc.actionId, s.calls, tool);
      if s.pc.reply.Some? && s.pc.reply.value != Reject {
        var c, d :| Grants(s.log, c, d, s.calls, name) && ReplyAt(s, d) == s.pc.reply.value;
        assert Grants(t.log, c, d, s.calls, name) && ReplyAt(t, d) == s.pc.reply.value;
      } else if s.pc.actionId == actionId && reply != Reject {
        assert Grants(t.log, a, |s.log|, s.calls, name) && ReplyAt(t, |s.log|) == reply;
      }
    }
  }

  lemma RespondKeeps(s: State, actionId: nat, reply: Reply)
    requires Inv(s) && s.present && CanResolve(s.session, actionId)
    ensures Inv(Outside(s, Respond(actionId, reply)))
  {
    PermitsGrow(s.log, Answered(actionId, reply));
    AskStaysOk(s, Outside(s, Respond(actionId, reply)), actionId, reply);
  }

  /** A step that leaves log, ids and grants alone, and at most moves the status away from
      waiting, gives up waiting, or wakes a suspended executor. */
  lemma QuietKeeps(s: State, t: State)
    requires Inv(s) && t.log == s.log && t.nextAction == s.nextAction && t.calls == s.calls
    requires t.alwaysApproved == s.alwaysApproved && t.session.pending == s.session.pending
    requires t.session.status == s.session.status || t.session.status != WaitingApproval
    requires t.pc == s.pc || !t.pc.Asking? || (s.pc.Asking? && t.pc == s.pc.(reply := Some(Reject)))
    ensures Inv(t)
  {
  }

  lemma OutsideKeeps(s: State, i: Input)
    requires Inv(s)
    ensures Inv(Outside(s, i))
  {
    if i.Respond? {
      if s.present && CanResolve(s.session, i.actionId) {
        RespondKeeps(s, i.actionId, i.reply);
      }
    } else {
      QuietKeeps(s, Outside(s, i));
    }
  }

  lemma StepKeeps(s: State, i: Input)
    requires Inv(s)
    ensures Inv(Step(s, i))
  {
    if Enabled(s, i) {
      ResumptionKeeps(s, i);
    } else {
      OutsideKeeps(s, i);
    }
  }

  lemma Always(limits: Limits, present: bool, inputs: seq<Input>, n: nat)
    requires n <= |inputs|
    ensures Inv(Run(limits, present, inputs, n))
  {
    forall s, i | Inv(s) ensures Inv(Step(s, i)) {
      StepKeeps(s, i);
    }
    AlongKeeps(Step, Init(limits, present), inputs, n, s => Inv(s));
  }

  /** The log of a whole run. */
  ghost function LogOf(limits: Limits, present: bool, inputs: seq<Input>): seq<Entry> {
    Run(limits, present, inputs, |inputs|).log
  }

  /** A command that publishes, a write to a sensitive file, a commit and a checkout run only if
      the action minted for that very call was granted before, or an earlier action for the same
      tool was granted for good. Without an input none of these tools runs at all. */
  lemma {:induction false} OnlyPermittedCallsRun(limits: Limits, present: bool, inputs: seq<Input>, e: nat)
    requires e < |LogOf(limits, present, inputs)| && LogOf(limits, present, inputs)[e].Ran?
    ensures var log := LogOf(limits, present, inputs);
            var t := log[e].tool;
            && (t.name in {"shell_exec", "file_write", "file_edit", "git_ops"} ==> t.input.Input?)
            && (t.name == "shell_exec" && t.input.publishes ==> Permitted(log, e, log[e].call, t.name))
            && (t.name == "file_write" && t.input.sensitivePath ==> Permitted(log, e, log[e].call, t.name))
            && (t.name == "file_edit" && t.input.sensitivePath ==> Permitted(log, e, log[e].call, t.name))
            && (t.name == "git_ops" && (t.input.operation == "commit" || t.input.operation == "checkout") ==>
                  Permitted(log, e, log[e].call, t.name))
  {
    Always(limits, present, inputs, |inputs|);
  }

  /** The user is asked about no other call. */
  lemma {:induction false} OnlyTheseAreAsked(limits: Limits, present: bool, inputs: seq<Input>, a: nat)
    requires a < |LogOf(limits, present, inputs)| && LogOf(limits, present, inputs)[a].Minted?
    ensures var t := LogOf(limits, present, inputs)[a].tool;
            && t.input.Input?
            && (|| (t.name == "shell_exec" && t.input.publishes)
                || (t.name == "file_write" && t.input.sensitivePath)
                || (t.name == "file_edit" && t.input.sensitivePath)
                || (t.name == "git_ops" && (t.input.operation == "commit" || t.input.operation == "checkout")))
  {
    Always(limits, present, inputs, |inputs|);
  }

  /** What becomes of the next tool of a reply: without an input one of the four tools fails the
      run, a call the user is to be asked about waits unless its tool was approved for good, with its
      question in the pending slot, or with a no when the session is gone, and any other call starts
      at once. */
  lemma NextToolWaits(s: State, r: Response, k: nat, answers: seq<Answer>)
    requires k < |Tools(r.content)| && s.interrupted != Some(Hard)
    ensures var t := Tools(r.content)[k];
            var after := NextTool(s, r, k, answers);
            var fails := t.input.NoInput? && t.name in {"shell_exec", "file_write", "file_edit", "git_ops"};
            var asks := t.input.Input? && (
              || (t.name == "shell_exec" && t.input.publishes)
              || (t.name in {"file_write", "file_edit"} && t.input.sensitivePath)
              || (t.name == "git_ops" && t.input.operation in {"commit", "checkout"}));
            && (s.present ==> s.session.events + [ToolCall(t.id, t.name)] <= after.session.events)
            && (after.pc == Saving(true) <==> fails)
            && (fails && s.present ==> after.session.status == Failed)
            && (after.pc.Asking? <==> asks && t.name !in s.alwaysApproved)
            && (after.pc.Asking? && s.present ==>
                  && after.pc.reply.None? && after.session.status == WaitingApproval
                  && after.session.pending == Some(Approval(after.pc.actionId, t.name)))
            && (after.pc.Asking? && !s.present ==> after.pc.reply == Some(Reject))
            && (after.pc == Executing(r, k, answers) && after.log == s.log + [Ran(s.calls + 1, t)] <==>
                  !fails && (asks ==> t.name in s.alwaysApproved))
  {
  }

  /** Every action is answered at most once, no call runs twice, and a session that waits for
      approval has a pending approval that is still unanswered. */
  lemma {:induction false} AnswersAreTakenOnce(limits: Limits, present: bool, inputs: seq<Input>)
    ensures var s := Run(limits, present, inputs, |inputs|);
            && IdsUsedOnce(s.log, s.nextAction) && RunsOnce(s.log, s.calls)
            && (s.session.status == WaitingApproval ==>
                  s.session.pending.Some? && Unanswered(s.log, s.session.pending.value.actionId))
  {
    Always(limits, present, inputs, |inputs|);
  }
}

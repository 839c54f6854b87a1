/** How far a run can go, when it goes on, and how soon a stop takes effect. */
module AgentProgress {
  import opened AgentTypes
  import opened AgentRun
  import opened AgentBudget
  import opened Traces
  import AgentEvents
  import AgentProtocol
  import opened Wrappers

  // ----- Pausing -----

  /** A pause is seen at the head of the loop, where it suspends the run instead of the next iteration. */
  lemma PauseSuspends(s: State)
    requires s.present && !s.pc.Created?
    ensures var p := Outside(s, Send(Pause));
            && p.session.status == Paused && p.pc == s.pc && p.interrupted == s.interrupted
            && (LoopTop(s).pc == Calling(1) ==> LoopTop(p).pc == Suspended(false))
  {
  }

  /** A resume undoes it, and wakes the run if it is suspended. */
  lemma ResumeUndoes(s: State)
    requires s.present && !s.pc.Created? && !s.paused
    ensures var r := Outside(Outside(s, Send(Pause)), Send(Resume));
            && r.session.status == Status.Running
            && r == s.(session := r.session, pc := if s.pc.Suspended? then Suspended(true) else s.pc)
  {
  }

  /** Pause and resume of the route only show, and an interrupt only leaves its note. */
  lemma RouteOnlyShows(s: State, how: Break)
    requires s.present && !s.pc.Created?
    ensures var p := Outside(s, RouterPause);
            p.session.status == Paused && p == s.(session := p.session)
    ensures var r := Outside(Outside(s, RouterPause), RouterResume);
            r.session.status == Status.Running && r == s.(session := r.session)
    ensures Outside(s, Send(Interrupt(how))) == s.(interrupted := Some(how))
  {
  }

  /** A stop is taken exactly if the session is registered and has not ended: it stops the session at
      once, and a run that has begun hears it as a hard interrupt. Nothing else moves. */
  lemma StopIsTaken(s: State)
    ensures var t := Outside(s, Stop);
            if s.present && s.session.status !in {Completed, Failed, Stopped} then
              && t.session.status == Stopped
              && t.session.events == s.session.events + [StatusChange(Stopped, None)]
              && t.interrupted == (if s.pc.Created? then s.interrupted else Some(Hard))
              && t == s.(session := t.session, interrupted := t.interrupted)
            else t == s
  {
  }

  // ----- The amount of work -----

  function ToolTotal(s: State): nat {
    Sum(s.log, |s.log|, ToolsOf)
  }

  /** How often the executor can have been resumed when it is where it is: two steps to get
      started, seven for each iteration, and two for each tool of an earlier reply. */
  function Allowance(s: State): int {
    var before := 2 + 7 * s.iteration + 2 * ToolTotal(s);
    match s.pc
    case Created => 0
    case Building => 1
    case Suspended(_) => before
    case Calling(a) => before - 8 + 2 * a
    case Backoff(a) => before - 7 + 2 * a
    case Persisting(r) => before - 1 - 2 * |Tools(r.content)|
    case Asking(r, k, _, _, _) => before - 2 * |Tools(r.content)| + 2 * k
    case Executing(r, k, _) => before - 2 * |Tools(r.content)| + 2 * k + 1
    case Saving(_) => before
    case Finished(_) => before + 1
  }

  lemma NewEntry(s: State, x: Entry)
    ensures Sum(s.log + [x], |s.log| + 1, ToolsOf) == ToolTotal(s) + ToolsOf(x)
  {
    SumAfter(s.log, x, ToolsOf);
  }

  lemma StartCallAllows(s: State, attempt: nat)
    ensures Allowance(StartCall(s, attempt)) == 2 + 7 * s.iteration + 2 * ToolTotal(s) - 8 + 2 * attempt
  {
    NewEntry(s, Called(s.messages, s.iteration, attempt, s.totalInput, s.totalOutput));
  }

  lemma LoopTopAllows(s: State)
    ensures Allowance(LoopTop(s)) >= 2 + 7 * s.iteration + 2 * ToolTotal(s)
  {
    StartCallAllows(Note(s.(iteration := s.iteration + 1), IterationStart(s.iteration + 1)), 1);
  }

  lemma EndToolsAllows(s: State, answers: seq<Answer>)
    ensures Allowance(EndTools(s, answers)) >= 2 + 7 * s.iteration + 2 * ToolTotal(s)
  {
    var told := if answers == [] then s else s.(messages := s.messages + [ToolResults(answers)]);
    LoopTopAllows(Note(told, IterationEnd(s.iteration)));
  }

  lemma NextToolAllows(s: State, r: Response, k: nat, answers: seq<Answer>)
    requires k <= |Tools(r.content)|
    ensures Allowance(NextTool(s, r, k, answers))
         >= 2 + 7 * s.iteration + 2 * ToolTotal(s) - 2 * |Tools(r.content)| + 2 * k
  {
    var tools := Tools(r.content);
    if k == |tools| || s.interrupted == Some(Hard) {
      EndToolsAllows(s, answers);
    } else {
      var called := Announce(s, tools[k]);
      NewEntry(called, Ran(called.calls, tools[k]));
      NewEntry(called, Minted(called.nextAction, called.calls, tools[k]));
    }
  }

  lemma ToolOverAllows(s: State, r: Response, k: nat, answers: seq<Answer>, isError: bool)
    requires k < |Tools(r.content)|
    ensures Allowance(ToolOver(s, r, k, answers, isError))
         >= 2 + 7 * s.iteration + 2 * ToolTotal(s) - 2 * |Tools(r.content)| + 2 * k + 2
  {
    var id := Tools(r.content)[k].id;
    NextToolAllows(Note(s, ToolResult(id, isError)), r, k + 1, answers + [Answer(id, isError)]);
  }

  lemma GrantAllows(s: State, r: Response, k: nat, answers: seq<Answer>)
    requires k < |Tools(r.content)|
    ensures Allowance(Execute(s, r, k, answers))
         == 2 + 7 * s.iteration + 2 * ToolTotal(s) - 2 * |Tools(r.content)| + 2 * k + 1
  {
    NewEntry(s, Ran(s.calls, Tools(r.content)[k]));
  }

  lemma ContinueAllows(s: State)
    requires Enabled(s, Continue)
    ensures Allowance(Resumption(s, Continue)) >= Allowance(s) + 1
  {
    var Asking(r, k, answers, _, reply) := s.pc;
    if reply.value == AgentTypes.Reject {
      ToolOverAllows(s, r, k, answers, true);
    } else {
      var names := if reply.value == AlwaysApprove then {Tools(r.content)[k].name} else {};
      GrantAllows(s.(alwaysApproved := s.alwaysApproved + names), r, k, answers);
    }
  }

  lemma PersistedAllows(s: State)
    requires Enabled(s, Persisted)
    ensures Allowance(Resumption(s, Persisted)) >= Allowance(s) + 1
  {
    NextToolAllows(s, s.pc.response, 0, []);
  }

  lemma ToolDoneAllows(s: State, isError: bool, secret: bool)
    requires Enabled(s, ToolDone(isError, secret))
    ensures Allowance(Resumption(s, ToolDone(isError, secret))) >= Allowance(s) + 1
  {
    var noted := if secret then Note(s, ErrorNote("Secret detected")) else s;
    ToolOverAllows(noted, s.pc.response, s.pc.k, s.pc.answers, isError);
  }

  lemma CallAllows(s: State, i: Input)
    requires Enabled(s, i) && (i.Reply? || i.Fails?) && s.pc.attempt <= MAX_LLM_RETRIES
    ensures Allowance(Resumption(s, i)) >= Allowance(s) + 1
  {
    if i.Reply? {
      NewEntry(s, Replied(i.response, s.totalInput, s.totalOutput));
    }
  }

  /** Every resumption is paid for by the allowance. */
  lemma ResumptionAllows(s: State, i: Input)
    requires Enabled(s, i) && Inv(s)
    ensures Allowance(Resumption(s, i)) >= Allowance(s) + 1
  {
    match i
    case Begin =>
    case PromptBuilt =>
      StartAllows(s);
      LoopTopAllows(s.(messages := [UserPrompt]));
    case Resumed => StartCallAllows(Note(s.(iteration := s.iteration + 1), IterationStart(s.iteration + 1)), 1);
    case Reply(_) => CallAllows(s, i);
    case Fails(_) => CallAllows(s, i);
    case BackoffOver => StartCallAllows(s, s.pc.attempt + 1);
    case Persisted => PersistedAllows(s);
    case Continue => ContinueAllows(s);
    case ToolDone(isError, secret) => ToolDoneAllows(s, isError, secret);
    case Saved =>
  }

  lemma StartAllows(s: State)
    requires s.pc.Building?
    ensures Allowance(s) == 1
  {
  }

  /** Nothing from outside spends it. */
  lemma OutsideAllows(s: State, i: Input)
    ensures Allowance(Outside(s, i)) == Allowance(s)
  {
    if i.Respond? {
      NewEntry(s, Answered(i.actionId, i.reply));
    }
  }

  /** How many of the first `n` inputs resume the executor. */
  function Resumptions(limits: Limits, present: bool, inputs: seq<Input>, n: nat): nat
    requires n <= |inputs|
  {
    if n == 0 then 0
    else
      Resumptions(limits, present, inputs, n - 1)
      + if Enabled(Run(limits, present, inputs, n - 1), inputs[n - 1]) then 1 else 0
  }

  lemma StepAllows(s: State, i: Input)
    requires Inv(s)
    ensures Allowance(Step(s, i)) >= Allowance(s) + if Enabled(s, i) then 1 else 0
  {
    if Enabled(s, i) {
      ResumptionAllows(s, i);
    } else {
      OutsideAllows(s, i);
    }
  }

  lemma {:induction false} Paid(limits: Limits, present: bool, inputs: seq<Input>, n: nat)
    requires n <= |inputs|
    ensures Resumptions(limits, present, inputs, n) <= Allowance(Run(limits, present, inputs, n))
  {
    if n > 0 {
      Paid(limits, present, inputs, n - 1);
      AgentBudget.Always(limits, present, inputs, n - 1);
      StepAllows(Run(limits, present, inputs, n - 1), inputs[n - 1]);
    }
  }

  /** The executor is resumed at most seven times an iteration and twice a tool, plus three, no
      matter what happens outside. */
  lemma {:induction false} WorkIsBounded(limits: Limits, present: bool, inputs: seq<Input>)
    ensures var s := Run(limits, present, inputs, |inputs|);
            Resumptions(limits, present, inputs, |inputs|) <= 3 + 7 * s.iteration + 2 * ToolTotal(s)
  {
    Paid(limits, present, inputs, |inputs|);
    AgentProtocol.Always(limits, present, inputs, |inputs|);
    AgentBudget.Always(limits, present, inputs, |inputs|);
  }

  /** An executor that has not finished can go on, unless it is paused, when a resume lets it
      go on, or asks for approval, when the time-out does. */
  lemma {:induction false} NeverStuck(limits: Limits, present: bool, inputs: seq<Input>)
    ensures var s := Run(limits, present, inputs, |inputs|);
            || s.pc.Finished?
            || (exists i :: Enabled(s, i))
            || (s.pc == Suspended(false) && Enabled(Step(s, Send(Resume)), Resumed))
            || (s.pc.Asking? && s.pc.reply.None? && Enabled(Step(s, Timeout), Continue))
  {
    AgentProtocol.Always(limits, present, inputs, |inputs|);
    var s := Run(limits, present, inputs, |inputs|);
    var next := match s.pc
      case Created => Begin
      case Building => PromptBuilt
      case Suspended(_) => Resumed
      case Calling(_) => Fails(false)
      case Backoff(_) => BackoffOver
      case Persisting(_) => Persisted
      case Asking(_, _, _, _, _) => Continue
      case Executing(_, _, _) => ToolDone(false, false)
      case Saving(_) => Saved
      case Finished(_) => Saved;
    assert Enabled(s, next) || s.pc.Finished? || s.pc == Suspended(false) || (s.pc.Asking? && s.pc.reply.None?);
  }

  // ----- Iterations -----

  /** Iterations stay below the limit plus one; that is the limit itself when it is whole. */
  lemma {:induction false} IterationsAreLimited(limits: Limits, present: bool, inputs: seq<Input>)
    ensures var n := Run(limits, present, inputs, |inputs|).iteration;
            n == 0 || (n - 1) as real < limits.maxIterations
  {
    AgentBudget.Always(limits, present, inputs, |inputs|);
  }

  lemma RunAfter(limits: Limits, present: bool, inputs: seq<Input>, i: Input)
    ensures Run(limits, present, inputs + [i], |inputs + [i]|) == Step(Run(limits, present, inputs, |inputs|), i)
  {
    AlongOne(Step, Init(limits, present), inputs, i);
  }

  const PLAIN := Response([ToolUse(Tool("id", "grep", NoInput))], false, 0, 0)

  ghost predicate Running(s: State, limits: Limits, n: nat) {
    && s.limits == limits && s.pc == Calling(1) && s.iteration == n && s.totalInput == 0 && s.totalOutput == 0
    && s.interrupted.None? && !s.paused
  }

  lemma OneReply(s: State)
    requires s.pc == Calling(1)
    ensures var t := Step(s, Reply(PLAIN));
            && t.pc == Persisting(PLAIN) && t.limits == s.limits && t.iteration == s.iteration
            && t.totalInput == s.totalInput && t.totalOutput == s.totalOutput
            && t.interrupted == s.interrupted && t.paused == s.paused
  {
  }

  lemma OneTool(s: State)
    requires s.pc == Persisting(PLAIN) && s.interrupted.None?
    ensures var t := Step(s, Persisted);
            && t.pc == Executing(PLAIN, 0, []) && t.limits == s.limits && t.iteration == s.iteration
            && t.totalInput == s.totalInput && t.totalOutput == s.totalOutput
            && t.interrupted == s.interrupted && t.paused == s.paused
  {
    assert Tools(PLAIN.content) == [Tool("id", "grep", NoInput)];
  }

  lemma NextRound(s: State, limits: Limits, n: nat)
    requires s.pc == Executing(PLAIN, 0, []) && s.limits == limits && s.iteration == n
    requires s.totalInput == 0 && s.totalOutput == 0 && s.interrupted.None? && !s.paused
    requires n as real < limits.maxIterations
    ensures Running(Step(s, ToolDone(false, false)), limits, n + 1)
  {
    assert Tools(PLAIN.content) == [Tool("id", "grep", NoInput)];
  }

  lemma OneMore(s: State, limits: Limits, n: nat)
    requires Running(s, limits, n) && n as real < limits.maxIterations
    ensures Running(Step(Step(Step(s, Reply(PLAIN)), Persisted), ToolDone(false, false)), limits, n + 1)
  {
    OneReply(s);
    OneTool(Step(s, Reply(PLAIN)));
    NextRound(Step(Step(s, Reply(PLAIN)), Persisted), limits, n);
  }

  /** Every iteration the limit leaves room for can be reached, since replies may cost nothing. */
  lemma {:induction false} Reach(limits: Limits, n: nat) returns (inputs: seq<Input>)
    requires n >= 1 && (n - 1) as real < limits.maxIterations
    ensures Running(Run(limits, true, inputs, |inputs|), limits, n)
  {
    if n == 1 {
      inputs := [];
      RunAfter(limits, true, [], Begin);
      RunAfter(limits, true, [Begin], PromptBuilt);
      assert [] + [Begin] == [Begin];
      inputs := [Begin] + [PromptBuilt];
    } else {
      var before := Reach(limits, n - 1);
      OneMore(Run(limits, true, before, |before|), limits, n - 1);
      RunAfter(limits, true, before, Reply(PLAIN));
      RunAfter(limits, true, before + [Reply(PLAIN)], Persisted);
      RunAfter(limits, true, before + [Reply(PLAIN)] + [Persisted], ToolDone(false, false));
      inputs := before + [Reply(PLAIN)] + [Persisted] + [ToolDone(false, false)];
    }
  }

  ghost predicate NeverOver(limits: Limits) {
    forall present, inputs ::
      var n := Run(limits, present, inputs, |inputs|).iteration; n == 0 || n as real <= limits.maxIterations
  }

  /** The number of iterations never exceeds the limit exactly when the limit is a whole number
      or not positive. The limit comes from the request, which may send a fraction. */
  lemma {:induction false} WholeLimitsHold(limits: Limits)
    ensures NeverOver(limits)
            <==> limits.maxIterations <= 0.0 || limits.maxIterations == limits.maxIterations.Floor as real
  {
    var max := limits.maxIterations;
    if max <= 0.0 || max == max.Floor as real {
      forall present, inputs
        ensures var n := Run(limits, present, inputs, |inputs|).iteration; n == 0 || n as real <= max
      {
        IterationsAreLimited(limits, present, inputs);
        WholeBound(Run(limits, present, inputs, |inputs|).iteration, max);
      }
    } else {
      FractionRoom(max);
      var inputs := Reach(limits, max.Floor + 1);
      assert Run(limits, true, inputs, |inputs|).iteration == max.Floor + 1;
    }
  }

  lemma WholeBound(n: nat, max: real)
    requires max <= 0.0 || max == max.Floor as real
    requires n == 0 || (n - 1) as real < max
    ensures n == 0 || n as real <= max
  {
    if n > 0 && max > 0.0 {
      var k := max.Floor;
      assert n - 1 < k;
      assert n <= k;
    }
  }

  lemma FractionRoom(max: real)
    requires max > 0.0 && max != max.Floor as real
    ensures max.Floor >= 0 && max.Floor as real < max < (max.Floor + 1) as real
  {
  }

  // ----- Stopping -----

  lemma EndToolsStops(s: State, answers: seq<Answer>)
    requires s.interrupted.Some?
    ensures var t := EndTools(s, answers); t.iteration == s.iteration && t.calls == s.calls && t.log == s.log
  {
  }

  lemma NextToolStops(s: State, r: Response, k: nat, answers: seq<Answer>)
    requires s.interrupted.Some?
    ensures var t := NextTool(s, r, k, answers);
            t.iteration == s.iteration && (s.interrupted == Some(Hard) ==> t.calls == s.calls && t.log == s.log)
  {
    EndToolsStops(s, answers);
  }

  lemma ToolOverStops(s: State, r: Response, k: nat, answers: seq<Answer>, isError: bool)
    requires s.interrupted.Some? && k < |Tools(r.content)|
    ensures var t := ToolOver(s, r, k, answers, isError);
            t.iteration == s.iteration && (s.interrupted == Some(Hard) ==> t.calls == s.calls && t.log == s.log)
  {
    var id := Tools(r.content)[k].id;
    NextToolStops(Note(s, ToolResult(id, isError)), r, k + 1, answers + [Answer(id, isError)]);
  }

  /** What a stopped executor still adds to the log when it is resumed, unless it leaves a pause. */
  function LastEntries(s: State, i: Input): seq<Entry>
    requires Enabled(s, i)
  {
    match i
    case Reply(r) => [Replied(r, s.totalInput, s.totalOutput)]
    case BackoffOver => [Called(s.messages, s.iteration, s.pc.attempt + 1, s.totalInput, s.totalOutput)]
    case Continue => if s.pc.reply.value == Reject then [] else [Ran(s.calls, Tools(s.pc.response.content)[s.pc.k])]
    case _ => []
  }

  lemma ResumptionStops(s: State, i: Input)
    requires s.interrupted.Some? && Enabled(s, i) && i != Resumed
    ensures var t := Resumption(s, i);
            && t.iteration == s.iteration
            && (s.interrupted == Some(Hard) ==> t.calls == s.calls && t.log == s.log + LastEntries(s, i))
  {
    assert s.log + [] == s.log;
    if i.Persisted? {
      NextToolStops(s, s.pc.response, 0, []);
    } else if i.Continue? {
      ToolOverStops(s, s.pc.response, s.pc.k, s.pc.answers, true);
    } else if i.ToolDone? {
      var noted := if i.secret then Note(s, ErrorNote("Secret detected")) else s;
      ToolOverStops(noted, s.pc.response, s.pc.k, s.pc.answers, i.isError);
    }
  }

  function RanOf(e: Entry): nat { if e.Ran? then 1 else 0 }

  /** Number of tools run. */
  function RunsOf(s: State): nat {
    Sum(s.log, |s.log|, RanOf)
  }

  lemma OutsideRunsNothing(s: State, i: Input)
    ensures var t := Outside(s, i);
            t.calls == s.calls && (t.log == s.log || (i.Respond? && t.log == s.log + [Answered(i.actionId, i.reply)]))
  {
  }

  // ----- Stopping, over the rest of a run -----

  /** The state a run ends in. */
  function End(limits: Limits, present: bool, inputs: seq<Input>): State {
    Run(limits, present, inputs, |inputs|)
  }

  lemma EndAfter(limits: Limits, present: bool, inputs: seq<Input>, i: Input)
    ensures End(limits, present, inputs + [i]) == Step(End(limits, present, inputs), i)
  {
    RunAfter(limits, present, inputs, i);
  }

  /** `t` follows `s`, interrupted as before, neither paused nor, after a hard stop, asking. */
  predicate WindsDown(s: State, t: State) {
    t.interrupted == s.interrupted && !t.pc.Suspended? && (s.interrupted == Some(Hard) ==> !t.pc.Asking?)
  }

  lemma NextToolWindsDown(s: State, r: Response, k: nat, answers: seq<Answer>)
    requires s.interrupted.Some?
    ensures WindsDown(s, NextTool(s, r, k, answers))
  {
  }

  lemma ToolOverWindsDown(s: State, r: Response, k: nat, answers: seq<Answer>, isError: bool)
    requires s.interrupted.Some? && k < |Tools(r.content)|
    ensures WindsDown(s, ToolOver(s, r, k, answers, isError))
  {
    var id := Tools(r.content)[k].id;
    NextToolWindsDown(Note(s, ToolResult(id, isError)), r, k + 1, answers + [Answer(id, isError)]);
  }

  lemma InterruptStays(s: State, i: Input)
    requires s.interrupted.Some? && Enabled(s, i) && i != Resumed
    ensures WindsDown(s, Resumption(s, i))
  {
    if i.Persisted? {
      NextToolWindsDown(s, s.pc.response, 0, []);
    } else if i.Continue? {
      ToolOverWindsDown(s, s.pc.response, s.pc.k, s.pc.answers, true);
    } else if i.ToolDone? {
      var noted := if i.secret then Note(s, ErrorNote("Secret detected")) else s;
      ToolOverWindsDown(noted, s.pc.response, s.pc.k, s.pc.answers, i.isError);
    }
  }

  /** Iterations started, and the one that a pause still lets start. */
  function Room(s: State): nat {
    s.iteration + if s.pc.Suspended? then 1 else 0
  }

  lemma RoomNarrows(s: State, i: Input)
    requires s.interrupted.Some?
    ensures Step(s, i).interrupted.Some? && Room(Step(s, i)) <= Room(s)
  {
    if Enabled(s, i) && i != Resumed {
      ResumptionStops(s, i);
      InterruptStays(s, i);
    }
  }

  lemma EndAlong(limits: Limits, present: bool, inputs: seq<Input>, more: seq<Input>)
    ensures End(limits, present, inputs + more) == Along(Step, End(limits, present, inputs), more, |more|)
  {
    AlongAll(Step, Init(limits, present), inputs, more);
  }

  lemma RoomOnlyNarrows(limits: Limits, present: bool, inputs: seq<Input>, more: seq<Input>)
    requires End(limits, present, inputs).interrupted.Some?
    ensures Room(End(limits, present, inputs + more)) <= Room(End(limits, present, inputs))
  {
    var s := End(limits, present, inputs);
    var inv := (t: State) => t.interrupted.Some? && Room(t) <= Room(s);
    forall t, i | inv(t) ensures inv(Step(t, i)) {
      RoomNarrows(t, i);
    }
    AlongKeeps(Step, s, more, |more|, inv);
    EndAlong(limits, present, inputs, more);
  }

  ghost predicate StartsAgain(limits: Limits, present: bool, inputs: seq<Input>, more: seq<Input>) {
    End(limits, present, inputs + more).iteration > End(limits, present, inputs).iteration
  }

  lemma LeavesPause(limits: Limits, present: bool, inputs: seq<Input>)
    requires End(limits, present, inputs).pc.Suspended?
    ensures StartsAgain(limits, present, inputs, [Send(Resume), Resumed])
  {
    EndAfter(limits, present, inputs, Send(Resume));
    EndAfter(limits, present, inputs + [Send(Resume)], Resumed);
    assert inputs + [Send(Resume)] + [Resumed] == inputs + [Send(Resume), Resumed];
  }

  /** Once a soft or hard interrupt is noted, the rest of the run, whatever happens, starts at most
      one more iteration; and some continuation starts one exactly if the run is suspended in a
      pause when the interrupt is noted. */
  lemma {:induction false} InterruptedRunEnds(limits: Limits, present: bool, inputs: seq<Input>)
    requires End(limits, present, inputs).interrupted.Some?
    ensures forall more :: End(limits, present, inputs + more).iteration <= End(limits, present, inputs).iteration + 1
    ensures (exists more :: StartsAgain(limits, present, inputs, more)) <==> End(limits, present, inputs).pc.Suspended?
  {
    forall more
      ensures End(limits, present, inputs + more).iteration <= Room(End(limits, present, inputs))
    {
      RoomOnlyNarrows(limits, present, inputs, more);
    }
    if more :| StartsAgain(limits, present, inputs, more) {
      RoomOnlyNarrows(limits, present, inputs, more);
    }
    if End(limits, present, inputs).pc.Suspended? {
      LeavesPause(limits, present, inputs);
    }
  }

  const STOPPED_IN_PAUSE := [Begin, Send(Pause), PromptBuilt, Stop]

  lemma StopNoted(s: State)
    requires s.present && !Terminal(s.session.status) && !s.pc.Created?
    ensures var t := Step(s, Stop); t.interrupted == Some(Hard) && t.pc == s.pc && t.session.pending == s.session.pending
    ensures Step(s, Stop).present && Step(s, Stop).session.status == Stopped
  {
  }

  lemma PausedFirst(limits: Limits)
    requires limits.maxIterations > 0.0
    ensures var s := Step(Step(Step(Init(limits, true), Begin), Send(Pause)), PromptBuilt);
            s.pc == Suspended(false) && s.present && s.session.status == Paused
  {
  }

  /** It can happen in any run that may start an iteration at all: the executor is paused before
      its first iteration, stopped, and resumed. */
  lemma StoppedRunStarts(limits: Limits)
    requires limits.maxIterations > 0.0
    ensures End(limits, true, STOPPED_IN_PAUSE).interrupted == Some(Hard)
    ensures StartsAgain(limits, true, STOPPED_IN_PAUSE, [Send(Resume), Resumed])
  {
    EndAfter(limits, true, [], Begin);
    EndAfter(limits, true, [] + [Begin], Send(Pause));
    EndAfter(limits, true, [] + [Begin] + [Send(Pause)], PromptBuilt);
    EndAfter(limits, true, [] + [Begin] + [Send(Pause)] + [PromptBuilt], Stop);
    assert [] + [Begin] + [Send(Pause)] + [PromptBuilt] + [Stop] == STOPPED_IN_PAUSE;
    PausedFirst(limits);
    StopNoted(Step(Step(Step(Init(limits, true), Begin), Send(Pause)), PromptBuilt));
    LeavesPause(limits, true, STOPPED_IN_PAUSE);
  }

  /** The wait for approval can still be granted, or has been. */
  predicate Grantable(s: State) {
    && s.pc.Asking? && s.pc.k < |Tools(s.pc.response.content)|
    && if s.pc.reply.Some? then s.pc.reply.value != AgentTypes.Reject
       else s.present && CanResolve(s.session, s.pc.actionId)
  }

  /** Tools run, and the one that a wait for approval still lets run. */
  function ToolRoom(s: State): nat {
    RunsOf(s) + if Grantable(s) then 1 else 0
  }

  lemma OutsideGrantsNothing(s: State, i: Input)
    ensures Grantable(Outside(s, i)) ==> Grantable(s)
    ensures RunsOf(Outside(s, i)) == RunsOf(s)
  {
    OutsideRunsNothing(s, i);
    if i.Respond? && Outside(s, i).log != s.log {
      SumAfter(s.log, Answered(i.actionId, i.reply), RanOf);
    }
  }

  lemma OutsideStaysHard(s: State, i: Input)
    requires s.interrupted == Some(Hard) && i != Send(Interrupt(Soft))
    ensures Outside(s, i).interrupted == Some(Hard)
  {
    assert i.Send? && i.signal.Interrupt? ==> i.signal.how == Hard;
  }

  lemma LastEntriesRun(s: State, i: Input)
    requires Enabled(s, i)
    ensures var log := s.log + LastEntries(s, i);
            Sum(log, |log|, RanOf) == RunsOf(s) + if i == Continue && s.pc.reply.value != AgentTypes.Reject then 1 else 0
  {
    var last := LastEntries(s, i);
    if last == [] {
      assert s.log + last == s.log;
    } else {
      SumAfter(s.log, last[0], RanOf);
      assert last == [last[0]];
    }
  }

  lemma ToolRoomNarrows(s: State, i: Input)
    requires s.interrupted == Some(Hard) && i != Send(Interrupt(Soft))
    ensures Step(s, i).interrupted == Some(Hard) && ToolRoom(Step(s, i)) <= ToolRoom(s)
    ensures Step(s, i).calls == s.calls
  {
    if !Enabled(s, i) {
      OutsideStaysHard(s, i);
      OutsideRunsNothing(s, i);
      OutsideGrantsNothing(s, i);
    } else if i == Resumed {
      SumAfter(s.log, Called(s.messages, s.iteration + 1, 1, s.totalInput, s.totalOutput), RanOf);
    } else {
      ResumptionStops(s, i);
      InterruptStays(s, i);
      LastEntriesRun(s, i);
    }
  }

  /** No input turns the hard interrupt into a soft one. */
  predicate StaysHard(more: seq<Input>) {
    Send(Interrupt(Soft)) !in more
  }

  lemma ToolRoomOnlyNarrows(limits: Limits, present: bool, inputs: seq<Input>, more: seq<Input>)
    requires End(limits, present, inputs).interrupted == Some(Hard) && StaysHard(more)
    ensures ToolRoom(End(limits, present, inputs + more)) <= ToolRoom(End(limits, present, inputs))
    ensures End(limits, present, inputs + more).calls == End(limits, present, inputs).calls
  {
    var s := End(limits, present, inputs);
    var inv := (t: State) => t.interrupted == Some(Hard) && ToolRoom(t) <= ToolRoom(s) && t.calls == s.calls;
    forall t, i | inv(t) && i in more ensures inv(Step(t, i)) {
      ToolRoomNarrows(t, i);
    }
    AlongKeeps(Step, s, more, |more|, inv);
    EndAlong(limits, present, inputs, more);
  }

  ghost predicate RunsAgain(limits: Limits, present: bool, inputs: seq<Input>, more: seq<Input>) {
    StaysHard(more) && RunsOf(End(limits, present, inputs + more)) > RunsOf(End(limits, present, inputs))
  }

  lemma GrantedRuns(s: State)
    requires Grantable(s) && s.pc.reply.Some?
    ensures RunsOf(Step(s, Continue)) == RunsOf(s) + 1
  {
    SumAfter(s.log, Ran(s.calls, Tools(s.pc.response.content)[s.pc.k]), RanOf);
  }

  lemma AnswerGrants(s: State)
    requires Grantable(s) && s.pc.reply.None?
    ensures var t := Step(s, Respond(s.pc.actionId, Approve));
            Grantable(t) && t.pc.reply.Some? && RunsOf(t) == RunsOf(s)
  {
    SumAfter(s.log, Answered(s.pc.actionId, Approve), RanOf);
  }

  lemma EndsWait(limits: Limits, present: bool, inputs: seq<Input>)
    requires Grantable(End(limits, present, inputs))
    ensures exists more :: RunsAgain(limits, present, inputs, more)
  {
    var s := End(limits, present, inputs);
    if s.pc.reply.Some? {
      GrantedRuns(s);
      EndAfter(limits, present, inputs, Continue);
      assert RunsAgain(limits, present, inputs, [Continue]);
    } else {
      var answer := Respond(s.pc.actionId, Approve);
      AnswerGrants(s);
      EndAfter(limits, present, inputs, answer);
      GrantedRuns(Step(s, answer));
      EndAfter(limits, present, inputs + [answer], Continue);
      assert inputs + [answer] + [Continue] == inputs + [answer, Continue];
      assert RunsAgain(limits, present, inputs, [answer, Continue]);
    }
  }

  /** Once a hard interrupt is noted, and unless a soft one replaces it, the rest of the run, whatever
      happens, announces no tool and runs at most one more; and some continuation runs one exactly if the executor
      waits for an approval that has been granted or can still be. */
  lemma {:induction false} HardStopEndsTools(limits: Limits, present: bool, inputs: seq<Input>)
    requires End(limits, present, inputs).interrupted == Some(Hard)
    ensures forall more | StaysHard(more) ::
              && End(limits, present, inputs + more).calls == End(limits, present, inputs).calls
              && RunsOf(End(limits, present, inputs + more)) <= RunsOf(End(limits, present, inputs)) + 1
    ensures (exists more :: RunsAgain(limits, present, inputs, more)) <==> Grantable(End(limits, present, inputs))
  {
    forall more | StaysHard(more)
      ensures End(limits, present, inputs + more).calls == End(limits, present, inputs).calls
      ensures RunsOf(End(limits, present, inputs + more)) <= ToolRoom(End(limits, present, inputs))
    {
      ToolRoomOnlyNarrows(limits, present, inputs, more);
    }
    if more :| RunsAgain(limits, present, inputs, more) {
      ToolRoomOnlyNarrows(limits, present, inputs, more);
    }
    if Grantable(End(limits, present, inputs)) {
      EndsWait(limits, present, inputs);
    }
  }

  const COMMIT := Tool("id", "git_ops", Input(false, false, "commit"))
  const ASKS := Response([ToolUse(COMMIT)], false, 0, 0)

  lemma CallsFirst(limits: Limits)
    requires limits.maxIterations > 0.0
    ensures var s := End(limits, true, [Begin, PromptBuilt]);
            && s.pc == Calling(1) && s.present && s.session.status == Status.Running
            && s.interrupted.None? && s.alwaysApproved == {}
  {
    EndAfter(limits, true, [], Begin);
    EndAfter(limits, true, [] + [Begin], PromptBuilt);
    assert [] + [Begin] + [PromptBuilt] == [Begin, PromptBuilt];
  }

  ghost predicate Waits(s: State) {
    && s.pc.Asking? && s.pc.response == ASKS && s.pc.k == 0 && s.pc.reply.None?
    && s.present && s.session.status == WaitingApproval && CanResolve(s.session, s.pc.actionId)
  }

  lemma AsksNext(s: State)
    requires s.pc == Calling(1) && s.present && s.interrupted.None? && s.alwaysApproved == {}
    ensures Waits(Step(Step(s, AgentRun.Reply(ASKS)), Persisted))
  {
    assert Tools(ASKS.content) == [COMMIT];
  }

  const ASKING := [Begin, PromptBuilt] + [AgentRun.Reply(ASKS)] + [Persisted]

  lemma CommitWaits(limits: Limits)
    requires limits.maxIterations > 0.0
    ensures Waits(End(limits, true, ASKING))
  {
    CallsFirst(limits);
    EndAfter(limits, true, [Begin, PromptBuilt], AgentRun.Reply(ASKS));
    EndAfter(limits, true, [Begin, PromptBuilt] + [AgentRun.Reply(ASKS)], Persisted);
    AsksNext(End(limits, true, [Begin, PromptBuilt]));
  }

  lemma StopWhileWaiting(s: State)
    requires Waits(s)
    ensures Step(s, Stop).interrupted == Some(Hard) && Grantable(Step(s, Stop))
  {
    StopNoted(s);
    assert Tools(ASKS.content) == [COMMIT];
  }

  /** That can happen as well: a commit waits for approval, the run is stopped, the user approves. */
  lemma StoppedRunCommits(limits: Limits)
    requires limits.maxIterations > 0.0
    ensures End(limits, true, ASKING + [Stop]).interrupted == Some(Hard)
    ensures exists more :: RunsAgain(limits, true, ASKING + [Stop], more)
  {
    CommitWaits(limits);
    EndAfter(limits, true, ASKING, Stop);
    StopWhileWaiting(End(limits, true, ASKING));
    EndsWait(limits, true, ASKING + [Stop]);
  }

  // ----- Ending without a session -----

  const LAST := Response([], true, 0, 0)

  lemma CleanedUp(s: State)
    requires s.present && s.session.status == Stopped && s.pc == Calling(1)
    ensures Step(s, Cleanup) == s.(present := false)
  {
  }

  lemma EndsUnseen(s: State)
    requires !s.present && s.pc == Calling(1)
    ensures var t := Step(Step(Step(s, AgentRun.Reply(LAST)), Persisted), Saved);
            t.pc == Finished(false) && t.session.events == s.session.events
  {
    assert Tools(LAST.content) == [] && Deltas(LAST.content) == [];
    assert s.session.events + [] == s.session.events;
  }

  const CLEANED := [Begin, PromptBuilt] + [Stop] + [Cleanup]

  lemma StopCleansUp(limits: Limits)
    requires limits.maxIterations > 0.0
    ensures var s := End(limits, true, CLEANED); s.pc == Calling(1) && !s.present
  {
    CallsFirst(limits);
    EndAfter(limits, true, [Begin, PromptBuilt], Stop);
    EndAfter(limits, true, [Begin, PromptBuilt] + [Stop], Cleanup);
    StopNoted(End(limits, true, [Begin, PromptBuilt]));
    CleanedUp(Step(End(limits, true, [Begin, PromptBuilt]), Stop));
  }

  const UNSEEN := CLEANED + [AgentRun.Reply(LAST)] + [Persisted] + [Saved]

  /** A run can end without failing and without a done event: it is stopped, its session is cleaned
      up while the model still answers, and then it ends. */
  lemma DoneCanBeMissing(limits: Limits)
    requires limits.maxIterations > 0.0
    ensures End(limits, true, UNSEEN).pc == Finished(false)
    ensures AgentEvents.NoDone(End(limits, true, UNSEEN).session.events)
  {
    StopCleansUp(limits);
    AgentEvents.Always(limits, true, CLEANED, |CLEANED|);
    EndAfter(limits, true, CLEANED, AgentRun.Reply(LAST));
    EndAfter(limits, true, CLEANED + [AgentRun.Reply(LAST)], Persisted);
    EndAfter(limits, true, CLEANED + [AgentRun.Reply(LAST)] + [Persisted], Saved);
    EndsUnseen(End(limits, true, CLEANED));
  }
}

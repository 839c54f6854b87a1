/** What an answer means: over every run, a call the user was asked about runs only on a yes of
    its own, and a tool whose call ran on a yes for good is not asked about again. */
module AgentConsent {
  import opened AgentTypes
  import opened AgentRun
  import opened AgentApproval
  import opened Traces
  import opened Wrappers

  /** Every call is asked about once, and not before it is made. */
  ghost predicate AskedOnce(log: seq<Entry>, calls: nat) {
    && (forall e | 0 <= e < |log| && log[e].Minted? :: log[e].call <= calls)
    && (forall d, e | 0 <= d < e < |log| && log[d].Minted? && log[e].Minted? :: log[d].call != log[e].call)
  }

  /** Entry `b` says yes to the action that entry `a` mints. */
  ghost predicate Yes(log: seq<Entry>, a: int, b: int) {
    && 0 <= a < b < |log|
    && log[a].Minted? && log[b].Answered? && log[b].actionId == log[a].actionId && log[b].reply != Reject
  }

  ghost predicate YesBefore(log: seq<Entry>, a: int, e: int) {
    exists b | b < e :: Yes(log, a, b)
  }

  ghost predicate RunOnYes(log: seq<Entry>) {
    forall a, e | 0 <= a < |log| && 0 <= e < |log| && log[a].Minted? && log[e].Ran? && log[a].call == log[e].call ::
      YesBefore(log, a, e)
  }

  /** Entry `e` runs the call of the action that entry `a` mints, on the yes for good in entry `b`. */
  ghost predicate RanForGood(log: seq<Entry>, a: int, b: int, e: int) {
    && Yes(log, a, b) && b < e < |log|
    && log[b].reply == AlwaysApprove && log[e].Ran? && log[e].call == log[a].call
  }

  ghost predicate NotAskedAfter(log: seq<Entry>, e: int, name: string) {
    forall d | 0 <= e < d < |log| && log[d].Minted? :: log[d].tool.name != name
  }

  ghost predicate GoodIsKept(log: seq<Entry>, names: set<string>) {
    forall a, b, e | RanForGood(log, a, b, e) ::
      log[e].tool.name in names && NotAskedAfter(log, e, log[e].tool.name)
  }

  ghost predicate Consent(log: seq<Entry>, calls: nat, names: set<string>) {
    AskedOnce(log, calls) && RunOnYes(log) && GoodIsKept(log, names)
  }

  ghost predicate Consents(s: State) {
    Consent(s.log, s.calls, s.alwaysApproved)
  }

  ghost predicate NotYetAsked(log: seq<Entry>, call: nat) {
    forall e | 0 <= e < |log| && log[e].Minted? :: log[e].call < call
  }

  // ----- One entry more -----

  lemma YesGrows(log: seq<Entry>, x: Entry)
    ensures forall a, b | b < |log| :: Yes(log, a, b) <==> Yes(log + [x], a, b)
    ensures forall a, e | e <= |log| :: YesBefore(log, a, e) ==> YesBefore(log + [x], a, e)
    ensures forall a, b, e | e < |log| :: RanForGood(log + [x], a, b, e) ==> RanForGood(log, a, b, e)
  {
    assert forall i | 0 <= i < |log| :: (log + [x])[i] == log[i];
    forall a, e | e <= |log| && YesBefore(log, a, e) ensures YesBefore(log + [x], a, e) {
      var b :| b < e && Yes(log, a, b);
      assert Yes(log + [x], a, b);
    }
  }

  lemma CalmConsents(log: seq<Entry>, calls: nat, names: set<string>, x: Entry)
    requires Consent(log, calls, names) && !x.Minted? && !x.Ran?
    ensures Consent(log + [x], calls, names)
  {
    YesGrows(log, x);
  }

  lemma AskConsents(log: seq<Entry>, calls: nat, names: set<string>, x: Entry)
    requires Consent(log, calls, names) && x.Minted? && x.call == calls && x.tool.name !in names
    requires NotYetRun(log, calls) && NotYetAsked(log, calls)
    ensures Consent(log + [x], calls, names)
  {
    YesGrows(log, x);
  }

  /** The call was not asked about. */
  lemma UnaskedConsents(log: seq<Entry>, calls: nat, names: set<string>, x: Entry)
    requires Consent(log, calls, names) && x.Ran? && x.call == calls && NotYetAsked(log, calls)
    ensures Consent(log + [x], calls, names)
  {
    YesGrows(log, x);
  }

  /** The call was asked about, in entry `m`, and runs on the yes in entry `b`. */
  lemma YesConsents(log: seq<Entry>, calls: nat, names: set<string>, x: Entry, m: int, b: int)
    requires Consent(log, calls, names) && x.Ran? && x.call == calls
    requires Yes(log, m, b) && log[m].call == calls && log[m].tool.name == x.tool.name
    requires forall c | Yes(log, m, c) :: c == b
    ensures Consent(log + [x], calls, names + if log[b].reply == AlwaysApprove then {x.tool.name} else {})
  {
    var more := names + if log[b].reply == AlwaysApprove then {x.tool.name} else {};
    YesGrows(log, x);
    assert YesBefore(log, m, |log|);
    forall a, c, e | RanForGood(log + [x], a, c, e)
      ensures (log + [x])[e].tool.name in more && NotAskedAfter(log + [x], e, (log + [x])[e].tool.name)
    {
      if e == |log| {
        assert Yes(log, a, c);
        assert a == m;
      }
    }
  }

  // ----- The segments of the executor -----

  lemma LoopTopConsents(s: State)
    requires Consents(s)
    ensures Consents(LoopTop(s))
  {
    if s.interrupted.None? && LimitReached(s).None? && !s.paused {
      StartConsents(s);
    }
  }

  lemma StartConsents(s: State)
    requires Consents(s)
    ensures Consents(StartIteration(s))
  {
    CallConsents(Note(s.(iteration := s.iteration + 1), IterationStart(s.iteration + 1)), 1);
  }

  lemma CallConsents(s: State, attempt: nat)
    requires Consents(s)
    ensures Consents(StartCall(s, attempt))
  {
    CalmConsents(s.log, s.calls, s.alwaysApproved,
                 Called(s.messages, s.iteration, attempt, s.totalInput, s.totalOutput));
  }

  lemma EndToolsConsents(s: State, answers: seq<Answer>)
    requires Consents(s)
    ensures Consents(EndTools(s, answers))
  {
    var told := if answers == [] then s else s.(messages := s.messages + [ToolResults(answers)]);
    LoopTopConsents(Note(told, IterationEnd(s.iteration)));
  }

  lemma AnnounceConsents(s: State, t: Tool)
    requires Consents(s) && Base(s)
    ensures var called := Announce(s, t);
            Consents(called) && NotYetAsked(called.log, called.calls) && NotYetRun(called.log, called.calls)
  {
  }

  lemma NextToolConsents(s: State, r: Response, k: nat, answers: seq<Answer>)
    requires Consents(s) && Base(s)
    ensures Consents(NextTool(s, r, k, answers))
  {
    var tools := Tools(r.content);
    if k >= |tools| || s.interrupted == Some(Hard) {
      EndToolsConsents(s, answers);
    } else {
      var t := Announce(s, tools[k]);
      AnnounceConsents(s, tools[k]);
      if RequiresApproval(tools[k]) == Needed && tools[k].name !in s.alwaysApproved {
        AskConsents(t.log, t.calls, t.alwaysApproved, Minted(t.nextAction, t.calls, tools[k]));
      } else if RequiresApproval(tools[k]) != Throws {
        UnaskedConsents(t.log, t.calls, t.alwaysApproved, Ran(t.calls, tools[k]));
      }
    }
  }

  lemma ToolOverConsents(s: State, r: Response, k: nat, answers: seq<Answer>, isError: bool)
    requires Consents(s) && Base(s) && k < |Tools(r.content)|
    ensures Consents(ToolOver(s, r, k, answers, isError))
  {
    var id := Tools(r.content)[k].id;
    NextToolConsents(Note(s, ToolResult(id, isError)), r, k + 1, answers + [Answer(id, isError)]);
  }

  lemma ContinueConsents(s: State)
    requires Consents(s) && Inv(s) && Enabled(s, Continue)
    ensures Consents(Resumption(s, Continue))
  {
    var Asking(r, k, answers, _, reply) := s.pc;
    var tool := Tools(r.content)[k];
    if reply.value == Reject {
      ToolOverConsents(s, r, k, answers, true);
    } else {
      var a, b :| Grants(s.log, a, b, s.calls, tool.name) && ReplyAt(s, b) == reply.value;
      assert Yes(s.log, a, b);
      YesConsents(s.log, s.calls, s.alwaysApproved, Ran(s.calls, tool), a, b);
    }
  }

  lemma ResumptionConsents(s: State, i: Input)
    requires Consents(s) && Inv(s) && Enabled(s, i)
    ensures Consents(Resumption(s, i))
  {
    match i
    case PromptBuilt => LoopTopConsents(s.(messages := [UserPrompt]));
    case Resumed => StartConsents(s);
    case Reply(r) => CalmConsents(s.log, s.calls, s.alwaysApproved, Replied(r, s.totalInput, s.totalOutput));
    case BackoffOver => CallConsents(s, s.pc.attempt + 1);
    case Persisted => PersistedConsents(s, s.pc.response);
    case Continue => ContinueConsents(s);
    case ToolDone(isError, secret) =>
      var noted := if secret then Note(s, ErrorNote("Secret detected")) else s;
      ToolOverConsents(noted, s.pc.response, s.pc.k, s.pc.answers, isError);
    case _ =>
  }

  lemma PersistedConsents(s: State, r: Response)
    requires Consents(s) && Base(s)
    ensures Consents(AfterPersist(s, r))
  {
    if !r.endTurn && Tools(r.content) != [] {
      NextToolConsents(s, r, 0, []);
    }
  }

  lemma OutsideConsents(s: State, i: Input)
    requires Consents(s)
    ensures Consents(Outside(s, i))
  {
    if i.Respond? {
      CalmConsents(s.log, s.calls, s.alwaysApproved, Answered(i.actionId, i.reply));
    }
  }

  lemma StepConsents(s: State, i: Input)
    requires Consents(s) && Inv(s)
    ensures Consents(Step(s, i))
  {
    if Enabled(s, i) {
      ResumptionConsents(s, i);
    } else {
      OutsideConsents(s, i);
    }
  }

  lemma AlwaysConsents(limits: Limits, present: bool, inputs: seq<Input>)
    ensures Consents(Run(limits, present, inputs, |inputs|))
  {
    forall s, i | Consents(s) && Inv(s) ensures Consents(Step(s, i)) && Inv(Step(s, i)) {
      StepConsents(s, i);
      StepKeeps(s, i);
    }
    AlongKeeps(Step, Init(limits, present), inputs, |inputs|, s => Consents(s) && Inv(s));
  }

  // ----- The results -----

  /** A call the user was asked about runs only after a yes to that very question, and never if the
      answer is a no. */
  lemma {:induction false} AskedCallsRunOnYes(limits: Limits, present: bool, inputs: seq<Input>, a: nat, e: nat)
    requires var log := LogOf(limits, present, inputs);
             && a < |log| && log[a].Minted?
             && e < |log| && log[e].Ran? && log[e].call == log[a].call
    ensures var log := LogOf(limits, present, inputs);
            && (exists b | a < b < e :: log[b].Answered? && log[b].actionId == log[a].actionId && log[b].reply != Reject)
            && (forall b | 0 <= b < |log| && log[b] == Answered(log[a].actionId, Reject) :: false)
  {
    AlwaysConsents(limits, present, inputs);
    Always(limits, present, inputs, |inputs|);
    var log := LogOf(limits, present, inputs);
    assert YesBefore(log, a, e);
    var b :| b < e && Yes(log, a, b);
    assert a < b < e;
  }

  /** Once a call has run on a yes for good, its tool is not asked about again. */
  lemma {:induction false} GoodForAll(limits: Limits, present: bool, inputs: seq<Input>, a: nat, b: nat, e: nat, d: nat)
    requires var log := LogOf(limits, present, inputs);
             && a < b < e < d < |log|
             && log[a].Minted? && log[b] == Answered(log[a].actionId, AlwaysApprove)
             && log[e].Ran? && log[e].call == log[a].call && log[d].Minted?
    ensures var log := LogOf(limits, present, inputs); log[d].tool.name != log[e].tool.name
  {
    AlwaysConsents(limits, present, inputs);
    var log := LogOf(limits, present, inputs);
    assert RanForGood(log, a, b, e);
  }
}

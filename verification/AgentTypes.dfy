/** The values an agent session is made of (src/agent/agent-session-manager.ts), and what each
    operation of the session manager does to one session. */
module AgentTypes {
  import opened Wrappers

  datatype Status = Initializing | Running | WaitingApproval | Paused | Completed | Failed | Stopped

  predicate Terminal(s: Status) {
    s in {Completed, Failed, Stopped}
  }

  datatype Reply = Approve | Reject | AlwaysApprove

  /** A request for approval; action ids are minted fresh, so numbers stand for them. */
  datatype Approval = Approval(actionId: nat, toolName: string)

  datatype Payload =
    | TextDelta(text: string)
    | ToolCall(toolUseId: string, toolName: string)
    | ToolResult(resultOf: string, isError: bool)
    | ApprovalNeeded(approval: Approval)
    | ApprovalResolved(actionId: nat, forTool: string, reply: Reply)
    | IterationStart(iteration: nat)
    | IterationEnd(ended: nat)
    | Thinking(attempt: nat)
    | ErrorNote(message: string)
    | Done(iterations: nat, input: nat, output: nat, interrupted: bool)
    | StatusChange(status: Status, error: Option<string>)
    | InterruptNote
    | FeedbackNote

  /** One session, with every event it has emitted so far. */
  datatype Session = Session(status: Status, pending: Option<Approval>, error: Option<string>, events: seq<Payload>)

  const NEW_SESSION := Session(Initializing, None, None, [])

  function Emit(s: Session, p: Payload): Session {
    s.(events := s.events + [p])
  }

  function SetStatus(s: Session, status: Status, error: Option<string>): Session {
    var noted := if error.Some? && error.value != "" then error else s.error;
    Emit(s.(status := status, error := noted), StatusChange(status, error))
  }

  function SetPending(s: Session, a: Approval): Session {
    Emit(s.(pending := Some(a), status := WaitingApproval), ApprovalNeeded(a))
  }

  predicate CanResolve(s: Session, actionId: nat) {
    s.pending.Some? && s.pending.value.actionId == actionId
  }

  function Resolve(s: Session, actionId: nat, reply: Reply): Session
    requires CanResolve(s, actionId)
  {
    Emit(s.(pending := None, status := Running), ApprovalResolved(actionId, s.pending.value.toolName, reply))
  }

  // ----- The replay buffer -----

  datatype Event = Event(seqNo: nat, payload: Payload)

  const MAX_EVENT_BUFFER := 500

  /** Events `from + 1` to the last one of a history, numbered from 1. */
  function Numbered(history: seq<Payload>, from: nat): (events: seq<Event>)
    requires from <= |history|
    ensures |events| == |history| - from
    ensures forall i | 0 <= i < |events| :: events[i] == Event(from + i + 1, history[from + i])
    decreases |history| - from
  {
    if from == |history| then [] else [Event(from + 1, history[from])] + Numbered(history, from + 1)
  }

  /** What the buffer holds: the last 500 events. */
  function Buffered(history: seq<Payload>): seq<Event> {
    Numbered(history, if |history| <= MAX_EVENT_BUFFER then 0 else |history| - MAX_EVENT_BUFFER)
  }

  /** The events after number `after`, as a reconnecting client is sent them. */
  function Replayed(buffer: seq<Event>, after: int): seq<Event> {
    if buffer == [] then []
    else if buffer[0].seqNo <= after then Replayed(buffer[1..], after)
    else [buffer[0]] + Replayed(buffer[1..], after)
  }

  lemma {:induction false} ReplayedFrom(history: seq<Payload>, from: nat, after: int)
    requires from <= |history|
    ensures Replayed(Numbered(history, from), after)
         == Numbered(history, if after <= from then from else if after <= |history| then after else |history|)
    decreases |history| - from
  {
    if from < |history| {
      ReplayedFrom(history, from + 1, after);
      assert Numbered(history, from)[1..] == Numbered(history, from + 1);
    }
  }

  /** A replay is exactly the events after `after`, none missing and none twice, if and only if
      no more than 500 events lie behind it. */
  lemma ReplayIsExact(history: seq<Payload>, after: nat)
    requires after <= |history|
    ensures Replayed(Buffered(history), after) == Numbered(history, after) <==> |history| - after <= 500
  {
    var from := if |history| <= MAX_EVENT_BUFFER then 0 else |history| - MAX_EVENT_BUFFER;
    ReplayedFrom(history, from, after);
  }

  /** One more event: it is pushed, and the oldest one is shifted out of a full buffer. */
  lemma PushAndShift(history: seq<Payload>, p: Payload)
    ensures var pushed := Buffered(history) + [Event(|history| + 1, p)];
            Buffered(history + [p]) == if |pushed| > MAX_EVENT_BUFFER then pushed[1..] else pushed
  {
    var pushed := Buffered(history) + [Event(|history| + 1, p)];
    var after := Buffered(history + [p]);
    var expected := if |pushed| > MAX_EVENT_BUFFER then pushed[1..] else pushed;
    assert |after| == |expected|;
    assert forall i | 0 <= i < |after| :: after[i] == expected[i];
  }
}

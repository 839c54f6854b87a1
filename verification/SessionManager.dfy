/** The session manager (src/agent/agent-session-manager.ts): sessions, the index of each
    user's sessions, the pending-approval slot and the replay buffer. */
module SessionManager {
  import opened AgentTypes
  import opened Wrappers

  /** What a session's emitter has been told to deliver to its listeners. */
  datatype Signal = EventSignal(event: Event) | StopSignal | ApprovalResponse(actionId: nat, reply: Reply) | FeedbackSignal

  class AgentSession {
    const id: string
    const userId: int
    const createdAt: int
    var status: Status
    var pendingApproval: Option<Approval>
    var error: Option<string>
    var eventBuffer: seq<Event>
    var eventSeqCounter: nat
    var emitted: seq<Signal>
    ghost var history: seq<Payload>

    constructor (id: string, userId: int, createdAt: int)
      ensures Valid() && View() == NEW_SESSION && emitted == []
      ensures this.id == id && this.userId == userId && this.createdAt == createdAt
    {
      this.id, this.userId, this.createdAt := id, userId, createdAt;
      status, pendingApproval, error := Initializing, None, None;
      eventBuffer, eventSeqCounter, emitted := [], 0, [];
      history := [];
    }

    ghost predicate Valid()
      reads this
    {
      eventSeqCounter == |history| && eventBuffer == Buffered(history)
    }

    ghost function View(): Session
      reads this
    {
      Session(status, pendingApproval, error, history)
    }

    method Emit(p: Payload)
      requires Valid()
      modifies this
      ensures Valid() && View() == AgentTypes.Emit(old(View()), p)
      ensures emitted == old(emitted) + [EventSignal(Event(eventSeqCounter, p))]
    {
      PushAndShift(history, p);
      eventSeqCounter := eventSeqCounter + 1;
      var event := Event(eventSeqCounter, p);
      eventBuffer := eventBuffer + [event];
      if |eventBuffer| > MAX_EVENT_BUFFER {
        eventBuffer := eventBuffer[1..];
      }
      history := history + [p];
      emitted := emitted + [EventSignal(event)];
    }
  }

  predicate Active(s: Status) {
    s in {Running, WaitingApproval, Initializing}
  }

  const DAY_MS := 86400000

  /** Calendar day, in UTC, of a time in milliseconds. */
  function Day(t: int): int { t / DAY_MS }

  /** Where a session goes in a list with the newest first: before the first one not newer. */
  function PlaceOf(s: AgentSession, list: seq<AgentSession>, from: nat): (p: nat)
    requires from <= |list|
    ensures from <= p <= |list|
    ensures forall i | from <= i < p :: list[i].createdAt > s.createdAt
    ensures p < |list| ==> list[p].createdAt <= s.createdAt
    decreases |list| - from
  {
    if from == |list| || list[from].createdAt <= s.createdAt then from else PlaceOf(s, list, from + 1)
  }

  ghost predicate NewestFirst(list: seq<AgentSession>) {
    forall i, j | 0 <= i < j < |list| :: list[i].createdAt >= list[j].createdAt
  }

  ghost predicate Distinct(list: seq<AgentSession>) {
    forall i, j | 0 <= i < j < |list| :: list[i] != list[j]
  }

  method InsertNewest(s: AgentSession, list: seq<AgentSession>) returns (r: seq<AgentSession>)
    requires NewestFirst(list) && Distinct(list) && s !in list
    ensures NewestFirst(r) && Distinct(r)
    ensures forall x :: x in r <==> x == s || x in list
  {
    var p := PlaceOf(s, list, 0);
    r := list[..p] + [s] + list[p..];
    assert list == list[..p] + list[p..];
    InPlace(s, list, p);
  }

  lemma InPlace(s: AgentSession, list: seq<AgentSession>, p: nat)
    requires NewestFirst(list) && Distinct(list) && s !in list && p <= |list|
    requires forall i | 0 <= i < p :: list[i].createdAt > s.createdAt
    requires p < |list| ==> list[p].createdAt <= s.createdAt
    ensures var r := list[..p] + [s] + list[p..]; NewestFirst(r) && Distinct(r)
  {
    var r := list[..p] + [s] + list[p..];
    forall i, j | 0 <= i < j < |r| ensures r[i].createdAt >= r[j].createdAt && r[i] != r[j] {
      assert r[i] == if i < p then list[i] else if i == p then s else list[i - 1];
      assert r[j] == if j < p then list[j] else if j == p then s else list[j - 1];
    }
  }

  class AgentSessionManager {
    var sessions: map<string, AgentSession>
    var userSessionIndex: map<int, set<string>>

    /** The index is exactly the inverse of the session map, with no empty entry. */
    ghost predicate Valid()
      reads this, sessions.Values
    {
      && (forall id | id in sessions :: sessions[id].id == id && sessions[id].Valid())
      && (forall id | id in sessions ::
            sessions[id].userId in userSessionIndex && id in userSessionIndex[sessions[id].userId])
      && (forall u | u in userSessionIndex :: userSessionIndex[u] != {})
      && (forall u, id | u in userSessionIndex && id in userSessionIndex[u] ::
            id in sessions && sessions[id].userId == u)
    }

    constructor ()
      ensures Valid() && sessions == map[] && userSessionIndex == map[]
    {
      sessions, userSessionIndex := map[], map[];
    }

    /** The session an operation on `id` may change. */
    ghost function Target(id: string): set<object>
      reads this
    {
      if id in sessions then {sessions[id]} else {}
    }

    method CreateSession(id: string, userId: int, now: int) returns (session: AgentSession)
      requires Valid() && id !in sessions
      modifies this
      ensures Valid() && fresh(session) && sessions == old(sessions)[id := session]
      ensures session.View() == NEW_SESSION && session.userId == userId && session.createdAt == now
    {
      session := new AgentSession(id, userId, now);
      sessions := sessions[id := session];
      AddToIndex(id, userId);
    }

    method AddToIndex(id: string, userId: int)
      modifies this`userSessionIndex
      ensures var before := old(userSessionIndex);
              userSessionIndex == before[userId := (if userId in before then before[userId] else {}) + {id}]
    {
      if userId !in userSessionIndex {
        userSessionIndex := userSessionIndex[userId := {}];
      }
      userSessionIndex := userSessionIndex[userId := userSessionIndex[userId] + {id}];
    }

    /** The index entry of a user: exactly the ids of the user's sessions. */
    function IdsOf(userId: int): (ids: set<string>)
      requires Valid()
      reads this, sessions.Values
      ensures forall id :: id in ids <==> id in sessions && sessions[id].userId == userId
    {
      if userId in userSessionIndex then userSessionIndex[userId] else {}
    }

    /** The list holds exactly the sessions with these ids, newest first, each once. */
    ghost predicate Lists(result: seq<AgentSession>, ids: set<string>)
      reads this
    {
      && NewestFirst(result) && Distinct(result)
      && (forall s | s in result :: s.id in ids && s.id in sessions && sessions[s.id] == s)
      && (forall id | id in ids :: id in sessions && sessions[id] in result)
    }

    method InsertById(id: string, list: seq<AgentSession>, ghost ids: set<string>) returns (r: seq<AgentSession>)
      requires Lists(list, ids) && id !in ids && id in sessions && sessions[id].id == id
      ensures Lists(r, ids + {id})
    {
      r := InsertNewest(sessions[id], list);
    }

    /** The user's sessions, newest first, each exactly once. */
    method ListSessions(userId: int) returns (result: seq<AgentSession>)
      requires Valid()
      ensures NewestFirst(result) && Distinct(result)
      ensures forall s :: s in result <==> s in sessions.Values && s.userId == userId
    {
      result := [];
      var ids := IdsOf(userId);
      ghost var all := ids;
      while ids != {}
        invariant ids <= all && Lists(result, all - ids)
        decreases |ids|
      {
        var id :| id in ids;
        result := InsertById(id, result, all - ids);
        assert all - ids + {id} == all - (ids - {id});
        ids := ids - {id};
      }
      assert all - ids == all;
      ListsAll(result, userId);
    }

    lemma ListsAll(result: seq<AgentSession>, userId: int)
      requires Valid() && Lists(result, IdsOf(userId))
      ensures forall s :: s in result <==> s in sessions.Values && s.userId == userId
    {
      forall s | s in sessions.Values && s.userId == userId ensures s in result {
        assert s.id in IdsOf(userId);
      }
    }

    ghost function ActiveOf(userId: int): set<string>
      reads this, sessions.Values
    {
      set id | id in sessions && sessions[id].userId == userId
               && sessions[id].status in {Initializing, Running, WaitingApproval}
    }

    /** The number of active sessions of the user, as a scan of all sessions would count them. */
    method GetActiveCount(userId: int) returns (count: nat)
      requires Valid()
      ensures count == |ActiveOf(userId)|
    {
      count := 0;
      ghost var found: set<string> := {};
      var ids := IdsOf(userId);
      while ids != {}
        invariant count == |found| && ids <= IdsOf(userId)
        invariant forall id :: id in found <==> id in IdsOf(userId) - ids && Active(sessions[id].status)
        decreases |ids|
      {
        var id :| id in ids;
        ids := ids - {id};
        if id in sessions && Active(sessions[id].status) {
          found := found + {id};
          count := count + 1;
        }
      }
      assert found == ActiveOf(userId);
    }

    ghost function CreatedOn(userId: int, day: int): set<string>
      reads this, sessions.Values
    {
      set id | id in sessions && sessions[id].userId == userId
               && day * 24 * 60 * 60 * 1000 <= sessions[id].createdAt < (day + 1) * 24 * 60 * 60 * 1000
    }

    method GetDailyRunCount(userId: int, now: int) returns (count: nat)
      requires Valid()
      ensures count == |CreatedOn(userId, Day(now))|
      ensures Day(now) * 24 * 60 * 60 * 1000 <= now < (Day(now) + 1) * 24 * 60 * 60 * 1000
    {
      count := 0;
      var today := Day(now);
      ghost var found: set<string> := {};
      var ids := IdsOf(userId);
      while ids != {}
        invariant count == |found| && ids <= IdsOf(userId)
        invariant forall id :: id in found <==> id in IdsOf(userId) - ids && Day(sessions[id].createdAt) == today
        decreases |ids|
      {
        var id :| id in ids;
        ids := ids - {id};
        if id in sessions && Day(sessions[id].createdAt) == today {
          found := found + {id};
          count := count + 1;
        }
      }
      assert found == CreatedOn(userId, today);
    }

    method EmitEvent(sessionId: string, p: Payload)
      requires Valid()
      modifies Target(sessionId)
      ensures Valid()
      ensures sessionId in sessions ==> sessions[sessionId].View() == Emit(old(sessions[sessionId].View()), p)
    {
      if sessionId in sessions {
        sessions[sessionId].Emit(p);
      }
    }

    method UpdateStatus(sessionId: string, status: Status, error: Option<string>)
      requires Valid()
      modifies Target(sessionId)
      ensures Valid()
      ensures sessionId in sessions ==>
                sessions[sessionId].View() == SetStatus(old(sessions[sessionId].View()), status, error)
      ensures sessionId in sessions ==>
                && sessions[sessionId].status == status
                && (error in {None, Some("")} ==> sessions[sessionId].error == old(sessions[sessionId].error))
                && (error !in {None, Some("")} ==> sessions[sessionId].error == error)
    {
      if sessionId !in sessions {
        return;
      }
      var session := sessions[sessionId];
      session.status := status;
      if error.Some? && error.value != "" {
        session.error := error;
      }
      session.Emit(StatusChange(status, error));
    }

    method SetPendingApproval(sessionId: string, approval: Approval)
      requires Valid()
      modifies Target(sessionId)
      ensures Valid()
      ensures sessionId in sessions ==>
                sessions[sessionId].View() == SetPending(old(sessions[sessionId].View()), approval)
      ensures sessionId in sessions ==>
                && sessions[sessionId].pendingApproval == Some(approval)
                && sessions[sessionId].status == WaitingApproval
                && sessions[sessionId].history == old(sessions[sessionId].history) + [ApprovalNeeded(approval)]
    {
      if sessionId !in sessions {
        return;
      }
      var session := sessions[sessionId];
      session.pendingApproval := Some(approval);
      session.status := WaitingApproval;
      session.Emit(ApprovalNeeded(approval));
    }

    /** An answer is taken for the pending action only, and only once; it is then handed to the
        listeners. Any other answer changes nothing. */
    method ResolveApproval(sessionId: string, actionId: nat, reply: Reply) returns (ok: bool)
      requires Valid()
      modifies Target(sessionId)
      ensures Valid()
      ensures ok <==> sessionId in sessions && old(CanResolve(sessions[sessionId].View(), actionId))
      ensures ok ==>
                && sessions[sessionId].View() == Resolve(old(sessions[sessionId].View()), actionId, reply)
                && !CanResolve(sessions[sessionId].View(), actionId)
                && sessions[sessionId].pendingApproval.None? && sessions[sessionId].status == Running
                && sessions[sessionId].history == old(sessions[sessionId].history) +
                     [ApprovalResolved(actionId, old(sessions[sessionId].pendingApproval.value.toolName), reply)]
                && sessions[sessionId].emitted != []
                && sessions[sessionId].emitted[|sessions[sessionId].emitted| - 1] == ApprovalResponse(actionId, reply)
      ensures !ok && sessionId in sessions ==> unchanged(sessions[sessionId])
    {
      if sessionId !in sessions || sessions[sessionId].pendingApproval.None? {
        return false;
      }
      var session := sessions[sessionId];
      if session.pendingApproval.value.actionId != actionId {
        return false;
      }
      var resolved := session.pendingApproval.value;
      session.pendingApproval := None;
      session.status := Running;
      session.Emit(ApprovalResolved(actionId, resolved.toolName, reply));
      session.emitted := session.emitted + [ApprovalResponse(actionId, reply)];
      return true;
    }

    method InjectFeedback(sessionId: string)
      requires Valid()
      modifies Target(sessionId)
      ensures Valid()
      ensures sessionId in sessions ==> sessions[sessionId].View() == Emit(old(sessions[sessionId].View()), FeedbackNote)
    {
      if sessionId in sessions {
        var session := sessions[sessionId];
        session.Emit(FeedbackNote);
        session.emitted := session.emitted + [FeedbackSignal];
      }
    }

    /** Stops a session that has not ended; the stop signal goes out before the status moves. */
    method StopSession(sessionId: string) returns (ok: bool)
      requires Valid()
      modifies Target(sessionId)
      ensures Valid()
      ensures ok <==> sessionId in sessions && !Terminal(old(sessions[sessionId].status))
      ensures ok ==>
                && sessions[sessionId].View() == SetStatus(old(sessions[sessionId].View()), Stopped, None)
                && |sessions[sessionId].emitted| == |old(sessions[sessionId].emitted)| + 2
                && sessions[sessionId].emitted[|sessions[sessionId].emitted| - 2] == StopSignal
      ensures !ok && sessionId in sessions ==> unchanged(sessions[sessionId])
    {
      if sessionId !in sessions || Terminal(sessions[sessionId].status) {
        return false;
      }
      var session := sessions[sessionId];
      session.emitted := session.emitted + [StopSignal];
      session.status := Stopped;
      session.Emit(StatusChange(Stopped, None));
      return true;
    }

    /** The clean-up timer: removes a session that has ended and nothing else. */
    method CleanupSession(sessionId: string)
      requires Valid()
      modifies this
      ensures Valid()
      ensures sessions == if sessionId in old(sessions) && Terminal(old(sessions)[sessionId].status)
                          then old(sessions) - {sessionId} else old(sessions)
    {
      if sessionId !in sessions {
        return;
      }
      var session := sessions[sessionId];
      if !Terminal(session.status) {
        return;
      }
      sessions := sessions - {sessionId};
      if session.userId in userSessionIndex {
        var left := userSessionIndex[session.userId] - {sessionId};
        userSessionIndex := userSessionIndex[session.userId := left];
        if left == {} {
          userSessionIndex := userSessionIndex - {session.userId};
        }
      }
    }
  }

  /** The replay loop of the event stream: what a client that has seen events up to `after` is
      sent before the live ones. */
  method ReplayTo(session: AgentSession, after: int) returns (frames: seq<Event>)
    requires session.Valid()
    ensures frames == Replayed(Buffered(session.history), after)
  {
    frames := [];
    var i := 0;
    var buffer := session.eventBuffer;
    ghost var rest := Replayed(buffer, after);
    while i < |buffer|
      invariant i <= |buffer|
      invariant rest == Replayed(buffer[i..], after) && Replayed(buffer, after) == frames + rest
    {
      assert buffer[i..][1..] == buffer[i + 1..];
      rest := Replayed(buffer[i + 1..], after);
      if buffer[i].seqNo > after {
        frames := frames + [buffer[i]];
      }
      i := i + 1;
    }
  }
}

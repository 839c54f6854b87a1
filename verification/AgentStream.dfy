/** The event stream of a session as one client sees it across reconnections
    (src/routes/yuan-agent-router.ts). */
module AgentStream {
  import opened AgentTypes
  import opened SessionManager
  import opened Traces

  /** What is written to a stream: recorded events, and the frame that closes the stream of an
      ended session, which is numbered like the next event but not recorded. */
  datatype Frame = Recorded(event: Event) | Closing(id: nat)

  function Frames(events: seq<Event>): (frames: seq<Frame>)
    ensures |frames| == |events|
    ensures forall i | 0 <= i < |events| :: frames[i] == Recorded(events[i])
  {
    if events == [] then [] else [Recorded(events[0])] + Frames(events[1..])
  }

  /** The frames of a new stream, for a client whose last number is `last`. */
  function Opening(history: seq<Payload>, ended: bool, last: int): seq<Frame> {
    Frames(Replayed(Buffered(history), last)) + if ended then [Closing(|history| + 1)] else []
  }

  /** The number behind which a stream starts: the client's, but no more than 500 back. */
  function StartOf(length: nat, last: int): (from: nat)
    ensures from <= length
  {
    if last >= length then length
    else if length > 500 && last < length - 500 then length - 500
    else if last > 0 then last
    else 0
  }

  /** A stream that starts right behind `from`: each later event once, in order, with its number, and
      then, if the session has ended, one frame with the number that the next event would get. */
  ghost predicate StreamsFrom(frames: seq<Frame>, history: seq<Payload>, ended: bool, from: nat)
    requires from <= |history|
  {
    var n := |history| - from;
    && |frames| == n + (if ended then 1 else 0)
    && (forall i | 0 <= i < n :: frames[i] == Recorded(Event(from + i + 1, history[from + i])))
    && (ended ==> frames[n] == Closing(|history| + 1))
  }

  lemma ReplayStarts(history: seq<Payload>, last: int)
    ensures Replayed(Buffered(history), last) == Numbered(history, StartOf(|history|, last))
  {
    ReplayedFrom(history, if |history| <= MAX_EVENT_BUFFER then 0 else |history| - MAX_EVENT_BUFFER, last);
  }

  lemma OpeningStreams(history: seq<Payload>, ended: bool, last: int)
    ensures StreamsFrom(Opening(history, ended, last), history, ended, StartOf(|history|, last))
  {
    var from := StartOf(|history|, last);
    var events, frames := Numbered(history, from), Frames(Replayed(Buffered(history), last));
    ReplayStarts(history, last);
    forall i | 0 <= i < |events| ensures frames[i] == Recorded(Event(from + i + 1, history[from + i])) {
      assert frames[i] == Recorded(events[i]);
    }
  }

  /** `GET /stream`: the replay, and then either live events or the closing frame. */
  method OpenStream(session: AgentSession, last: int) returns (frames: seq<Frame>, live: bool)
    requires session.Valid()
    ensures frames == Opening(session.history, Terminal(session.status), last)
    ensures live <==> !Terminal(session.status)
    ensures StreamsFrom(frames, session.history, session.status in {Completed, Failed, Stopped},
                        StartOf(|session.history|, last))
  {
    OpeningStreams(session.history, Terminal(session.status), last);
    var events := ReplayTo(session, last);
    frames := Frames(events);
    live := true;
    if session.status in {Completed, Failed, Stopped} {
      frames := frames + [Closing(session.eventSeqCounter + 1)];
      live := false;
    }
  }

  // ----- One client -----

  /** The session's events, whether it has ended, and the client: its open stream, if any, the
      events it has received, and whether its last number came from a closing frame. */
  datatype Feed = Feed(history: seq<Payload>, ended: bool, open: bool, received: seq<Event>, last: nat, closed: bool)

  const FIRST := Feed([], false, false, [], 0, false)

  datatype Move =
    | Happens(p: Payload, arrives: bool)
    | Turns(ended: bool)
    | Connects(frames: nat)
    | Drops

  /** An event is recorded. An open stream delivers it, or breaks; the done event closes it. */
  function Record(f: Feed, p: Payload, arrives: bool): Feed {
    var n := |f.history| + 1;
    var recorded := f.(history := f.history + [p]);
    if !f.open then recorded
    else if !arrives then recorded.(open := false)
    else recorded.(received := f.received + [Event(n, p)], last := n, closed := false, open := !p.Done?)
  }

  /** Some replayed events arrive. */
  function Arrive(f: Feed, arrived: seq<Event>): Feed {
    if arrived == [] then f
    else f.(received := f.received + arrived, last := arrived[|arrived| - 1].seqNo, closed := false)
  }

  /** The client connects and receives the first `frames` frames before anything else happens. */
  function Connect(f: Feed, frames: nat): Feed {
    var replay := Replayed(Buffered(f.history), f.last);
    if frames < |replay| then Arrive(f, replay[..frames])
    else
      var got := Arrive(f, replay);
      if !f.ended then got.(open := true)
      else if frames == |replay| then got
      else got.(last := |f.history| + 1, closed := true)
  }

  /** One frame reaches the client. */
  function Take(f: Feed, frame: Frame): Feed {
    match frame
    case Recorded(event) => f.(received := f.received + [event], last := event.seqNo, closed := false)
    case Closing(id) => f.(last := id, closed := true)
  }

  /** The first `k` frames do. */
  function TakeAll(f: Feed, frames: seq<Frame>, k: nat): Feed
    requires k <= |frames|
  {
    if k == 0 then f else Take(TakeAll(f, frames, k - 1), frames[k - 1])
  }

  lemma {:induction false} ArriveTakes(f: Feed, events: seq<Event>, frames: seq<Frame>, k: nat)
    requires k <= |events| <= |frames| && forall i | 0 <= i < |events| :: frames[i] == Recorded(events[i])
    ensures TakeAll(f, frames, k) == Arrive(f, events[..k])
  {
    if k > 0 {
      ArriveTakes(f, events, frames, k - 1);
      assert events[..k] == events[..k - 1] + [events[k - 1]];
      assert f.received + events[..k] == f.received + events[..k - 1] + [events[k - 1]];
    }
  }

  /** What connecting means: the client takes as many frames of the new stream as reach it, and the
      stream stays open exactly if all of them do and the session has not ended. */
  lemma ConnectTakes(f: Feed, frames: nat)
    requires !f.open
    ensures var stream := Opening(f.history, f.ended, f.last);
            var k := if frames < |stream| then frames else |stream|;
            Connect(f, frames) == TakeAll(f, stream, k).(open := frames >= |stream| && !f.ended)
  {
    var replay, stream := Replayed(Buffered(f.history), f.last), Opening(f.history, f.ended, f.last);
    assert forall i | 0 <= i < |replay| :: stream[i] == Recorded(replay[i]);
    ArriveTakes(f, replay, stream, if frames < |replay| then frames else |replay|);
    assert replay[..|replay|] == replay;
  }

  /** What recording means: an open stream that does not break delivers the event with its number, and
      stays open unless the run is done; a broken or closed stream delivers nothing. */
  lemma RecordDelivers(f: Feed, p: Payload, arrives: bool)
    ensures var g := Record(f, p, arrives);
            && g.history == f.history + [p] && g.ended == f.ended
            && (g.open <==> f.open && arrives && !p.Done?)
            && (f.open && arrives ==> g.(open := f.open, history := f.history)
                                      == Take(f, Recorded(Event(|f.history| + 1, p))))
            && (!f.open || !arrives ==>
                  g.received == f.received && g.last == f.last && g.closed == f.closed)
  {
  }

  function Step(f: Feed, m: Move): Feed {
    match m
    case Happens(p, arrives) => Record(f, p, arrives)
    case Turns(ended) => f.(ended := ended)
    case Connects(frames) => if f.open then f else Connect(f, frames)
    case Drops => f.(open := false)
  }

  function Run(moves: seq<Move>, n: nat): Feed
    requires n <= |moves|
  {
    Along(Step, FIRST, moves, n)
  }

  // ----- What the client misses -----

  /** The client has received the first events, each once and in order, all of them if its stream
      is open, and its number is that of the last one, or of a closing frame sent right after it. */
  ghost predicate Gapless(f: Feed) {
    && |f.received| <= |f.history|
    && f.received == Numbered(f.history, 0)[..|f.received|]
    && (f.open ==> |f.received| == |f.history|)
    && f.last == |f.received| + if f.closed then 1 else 0
  }

  /** What can be told from the client's number: the buffer still reaches back to it, and it was
      that of a recorded event, unless nothing has been recorded since. */
  predicate Safe(f: Feed) {
    if f.closed then |f.history| < f.last else |f.history| - f.last <= 500
  }

  lemma NumberedGrows(history: seq<Payload>, p: Payload)
    ensures Numbered(history + [p], 0) == Numbered(history, 0) + [Event(|history| + 1, p)]
  {
  }

  lemma ReplayIsSuffix(history: seq<Payload>, last: nat)
    requires last <= |history|
    ensures Numbered(history, last) == Numbered(history, 0)[last..]
  {
  }

  lemma RecordKeeps(f: Feed, p: Payload, arrives: bool)
    requires Gapless(f)
    ensures Gapless(Record(f, p, arrives))
  {
    NumberedGrows(f.history, p);
  }

  lemma ReplayOf(f: Feed)
    requires Gapless(f) && Safe(f)
    ensures Replayed(Buffered(f.history), f.last) == Numbered(f.history, 0)[|f.received|..]
  {
    var from := if |f.history| <= MAX_EVENT_BUFFER then 0 else |f.history| - MAX_EVENT_BUFFER;
    ReplayedFrom(f.history, from, f.last);
    ReplayIsSuffix(f.history, |f.received|);
  }

  lemma PartOfRest(all: seq<Event>, m: nat, k: nat)
    requires m + k <= |all|
    ensures all[..m] + all[m..][..k] == all[..m + k]
    ensures k > 0 ==> all[m..][..k][k - 1] == all[m + k - 1]
  {
  }

  lemma ArriveKeeps(f: Feed, k: nat)
    requires Gapless(f) && !f.open && |f.received| + k <= |f.history|
    ensures var g := Arrive(f, Numbered(f.history, 0)[|f.received|..][..k]);
            Gapless(g) && |g.received| == |f.received| + k && !g.open && g.history == f.history
  {
    PartOfRest(Numbered(f.history, 0), |f.received|, k);
  }

  lemma ConnectKeeps(f: Feed, frames: nat)
    requires Gapless(f) && !f.open && Safe(f)
    ensures Gapless(Connect(f, frames))
  {
    ReplayOf(f);
    var replay := Numbered(f.history, 0)[|f.received|..];
    assert replay[..|replay|] == replay;
    ArriveKeeps(f, if frames < |replay| then frames else |replay|);
  }

  /** A reconnecting client that receives everything it is sent has received exactly the recorded
      events if and only if its number was that of a recorded event no more than 500 events back,
      or that of a closing frame with nothing recorded since. */
  lemma ReconnectIsExact(f: Feed)
    requires Gapless(f) && !f.open
    ensures Connect(f, |Replayed(Buffered(f.history), f.last)| + 1).received == Numbered(f.history, 0) <==> Safe(f)
  {
    var all, replay := Numbered(f.history, 0), Replayed(Buffered(f.history), f.last);
    if Safe(f) {
      ReplayOf(f);
      assert all[..|f.received|] + all[|f.received|..] == all;
    } else if f.received + replay == all {
      assert replay == all[|f.received|..];
      var from := if |f.history| <= MAX_EVENT_BUFFER then 0 else |f.history| - MAX_EVENT_BUFFER;
      ReplayedFrom(f.history, from, f.last);
    }
  }

  ghost predicate SafeAt(moves: seq<Move>, n: nat)
    requires n < |moves|
  {
    moves[n].Connects? && !Run(moves, n).open ==> Safe(Run(moves, n))
  }

  /** Whatever a client goes through, streams that break between any two frames included: as long as
      every connection is made with a safe number, it has received the first events, each once and
      in order, and all of them while its stream is open. */
  lemma {:induction false} NothingIsMissed(moves: seq<Move>, n: nat)
    requires n <= |moves| && forall m | 0 <= m < n :: SafeAt(moves, m)
    ensures Gapless(Run(moves, n))
  {
    if n > 0 {
      NothingIsMissed(moves, n - 1);
      assert SafeAt(moves, n - 1);
      StepKeeps(Run(moves, n - 1), moves[n - 1]);
    }
  }

  lemma StepKeeps(f: Feed, m: Move)
    requires Gapless(f) && (m.Connects? && !f.open ==> Safe(f))
    ensures Gapless(Step(f, m))
  {
    match m
    case Happens(p, arrives) => RecordKeeps(f, p, arrives);
    case Connects(frames) =>
      if !f.open {
        ConnectKeeps(f, frames);
      }
    case _ =>
  }

  const REVISITED := [Turns(true), Connects(1), Happens(FeedbackNote, true)]

  /** A client that has seen the closing frame misses the event recorded next, the only one behind it. */
  lemma ClosingFrameHidesNext()
    ensures var f := Run(REVISITED, 3);
            && Gapless(f) && !Safe(f) && |f.history| == 1
            && forall k :: Connect(f, k).received == []
  {
    var ended := FIRST.(ended := true);
    assert Replayed(Buffered([]), 0) == [];
    var closed := Connect(ended, 1);
    assert closed == Feed([], true, false, [], 1, true);
    var f := Record(closed, FeedbackNote, true);
    assert Run(REVISITED, 1) == ended && Run(REVISITED, 2) == closed && Run(REVISITED, 3) == f;
    ReplayedFrom(f.history, 0, 1);
    assert Numbered(f.history, 1) == [];
  }
}

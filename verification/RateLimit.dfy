/** The per-address, per-route rate limiter (src/middleware/rate-limit.ts). */
module RateLimit {
  datatype RateInfo = RateInfo(count: nat, last: int)

  const RATE_LIMIT_MS := 500
  const MAX_BURST := 5
  const BAN_THRESHOLD := 20
  const BAN_DURATION_MS := 60 * 1000

  datatype Verdict = Next | Banned | TooMany | NewBan | Suspicious

  /** All that is remembered about one key; a stored ban time of 0 counts as no ban. */
  datatype KeyState = KeyState(info: RateInfo, ban: int)

  const FRESH := KeyState(RateInfo(0, 0), 0)

  predicate InBan(st: KeyState, now: int) {
    st.ban != 0 && st.ban > now
  }

  /** What one request leaves behind, and the answer it gets. */
  function Step(st: KeyState, now: int): (KeyState, Verdict) {
    var KeyState(info, ban) := st;
    if InBan(st, now) then (st, Banned)
    else if now - info.last < RATE_LIMIT_MS then
      var counted := info.(count := info.count + 1);
      if counted.count > MAX_BURST then (KeyState(counted, now + BAN_DURATION_MS), NewBan)
      else (KeyState(counted, ban), TooMany)
    else if info.count > BAN_THRESHOLD then
      (KeyState(info.(count := 0), now + BAN_DURATION_MS), Suspicious)
    else (KeyState(RateInfo(0, now), ban), Next)
  }

  class Limiter {
    var ipCache: map<string, RateInfo>
    var banList: map<string, int>

    constructor ()
      ensures forall k :: StateOf(k) == FRESH
    {
      ipCache, banList := map[], map[];
    }

    function StateOf(key: string): KeyState
      reads this
    {
      KeyState(if key in ipCache then ipCache[key] else FRESH.info, if key in banList then banList[key] else 0)
    }

    /** `rateLimit` for the key made of address and route: the key's state moves as `Step`
        says, the answer is the one `Step` gives, and no other key is touched. */
    method Check(key: string, now: int) returns (v: Verdict)
      modifies this
      ensures (StateOf(key), v) == Step(old(StateOf(key)), now)
      ensures forall k | k != key :: StateOf(k) == old(StateOf(k))
    {
      if key in banList && banList[key] != 0 && banList[key] > now {
        return Banned;
      }
      if key !in ipCache {
        ipCache := ipCache[key := RateInfo(0, 0)];
      }
      var info := ipCache[key];
      var diff := now - info.last;
      if diff < RATE_LIMIT_MS {
        info := info.(count := info.count + 1);
        ipCache := ipCache[key := info];
        if info.count > MAX_BURST {
          banList := banList[key := now + BAN_DURATION_MS];
          return NewBan;
        }
        return TooMany;
      }
      if info.count > BAN_THRESHOLD {
        banList := banList[key := now + BAN_DURATION_MS];
        ipCache := ipCache[key := info.(count := 0)];
        return Suspicious;
      }
      ipCache := ipCache[key := RateInfo(0, now)];
      return Next;
    }
  }

  // ----- Traces of one key -----

  /** The state after the first `n` requests. */
  function Run(times: seq<int>, n: nat): KeyState
    requires n <= |times|
  {
    if n == 0 then FRESH else Step(Run(times, n - 1), times[n - 1]).0
  }

  function Answer(times: seq<int>, i: nat): Verdict
    requires i < |times|
  {
    Step(Run(times, i), times[i]).1
  }

  lemma {:induction false} LastAdmitted(times: seq<int>, i: nat, n: nat)
    requires i < n <= |times| && Answer(times, i) == Next
    ensures Run(times, n).info.last >= times[i]
  {
    if i + 1 < n {
      LastAdmitted(times, i, n - 1);
    }
  }

  /** Any two admitted requests of a key are at least half a second apart, whatever the clock
      does in between. */
  lemma AdmittedApart(times: seq<int>, i: nat, j: nat)
    requires i < j < |times| && Answer(times, i) == Next && Answer(times, j) == Next
    ensures times[j] - times[i] >= 500
  {
    LastAdmitted(times, i, j);
  }

  ghost predicate FromZero(times: seq<int>) {
    forall i | 0 <= i < |times| :: times[i] >= 0
  }

  lemma {:induction false} BanStays(times: seq<int>, i: nat, n: nat)
    requires FromZero(times) && i < n <= |times| && Answer(times, i) in {NewBan, Suspicious}
    ensures Run(times, n).ban >= times[i] + BAN_DURATION_MS
  {
    if i + 1 < n {
      BanStays(times, i, n - 1);
    }
  }

  /** Once a ban starts, nothing is admitted for a minute, even if the clock is set back. */
  lemma BannedForAMinute(times: seq<int>, i: nat, j: nat)
    requires FromZero(times) && i < j < |times| && Answer(times, i) in {NewBan, Suspicious}
    requires times[j] < times[i] + 60000
    ensures Answer(times, j) == Banned
  {
    BanStays(times, i, j);
  }

  // ----- Who is admitted -----

  /** The answers to the first `n` requests. */
  function AnswersTo(times: seq<int>, n: nat): (answers: seq<Verdict>)
    requires n <= |times|
    ensures |answers| == n
  {
    if n == 0 then [] else AnswersTo(times, n - 1) + [Answer(times, n - 1)]
  }

  /** The latest of the times answered so, plus `later`, or 0 if there is none. */
  ghost predicate Latest(times: seq<int>, answers: seq<Verdict>, v: Verdict, later: int, kept: int)
    requires |answers| <= |times|
  {
    && (kept == 0 || exists j | 0 <= j < |answers| :: answers[j] == v && times[j] + later == kept)
    && forall j | 0 <= j < |answers| && answers[j] == v :: times[j] + later <= kept
  }

  lemma LatestNext(times: seq<int>, answers: seq<Verdict>, v: Verdict, later: int, kept: int, answer: Verdict)
    requires |answers| < |times| && Latest(times, answers, v, later, kept)
    requires answer == v ==> kept <= times[|answers|] + later
    ensures Latest(times, answers + [answer], v, later, if answer == v then times[|answers|] + later else kept)
  {
    var more := answers + [answer];
    assert more[|answers|] == answer && forall j | 0 <= j < |answers| :: more[j] == answers[j];
  }

  lemma StepRemembers(st: KeyState, now: int)
    requires Step(st, now).1 != Suspicious && st.info.last <= now
    ensures var (after, v) := Step(st, now);
            && after.info.last == (if v == Next then now else st.info.last)
            && after.ban == (if v == NewBan then now + BAN_DURATION_MS else st.ban)
            && (v == NewBan && now >= 0 ==> st.ban <= now + BAN_DURATION_MS)
  {
  }

  lemma {:induction false} AnswersAre(times: seq<int>, n: nat, j: nat)
    requires j < n <= |times|
    ensures AnswersTo(times, n)[j] == Answer(times, j)
  {
    if j < n - 1 {
      AnswersAre(times, n - 1, j);
    }
  }

  /** What the state remembers of the answers so far. */
  ghost predicate Kept(times: seq<int>, answers: seq<Verdict>, st: KeyState)
    requires |answers| <= |times|
  {
    && Latest(times, answers, Next, 0, st.info.last)
    && Latest(times, answers, NewBan, BAN_DURATION_MS, st.ban)
  }

  lemma KeptNext(times: seq<int>, answers: seq<Verdict>, st: KeyState)
    requires |answers| < |times| && Kept(times, answers, st) && times[|answers|] >= 0
    requires st.info.last <= times[|answers|] && Step(st, times[|answers|]).1 != Suspicious
    ensures var (after, v) := Step(st, times[|answers|]); Kept(times, answers + [v], after)
  {
    var v := Step(st, times[|answers|]).1;
    StepRemembers(st, times[|answers|]);
    LatestNext(times, answers, Next, 0, st.info.last, v);
    LatestNext(times, answers, NewBan, BAN_DURATION_MS, st.ban, v);
  }

  lemma {:induction false} Remembers(times: seq<int>, n: nat)
    requires Monotone(times) && n <= |times|
    ensures Kept(times, AnswersTo(times, n), Run(times, n))
  {
    if n > 0 {
      Remembers(times, n - 1);
      NeverSuspicious(times, n - 1);
      CountIsLow(times, n - 1);
      assert n > 1 ==> times[n - 2] - times[n - 1] <= 0;
      KeptNext(times, AnswersTo(times, n - 1), Run(times, n - 1));
    }
  }

  lemma KeptDecides(times: seq<int>, answers: seq<Verdict>, st: KeyState)
    requires |answers| < |times| && Kept(times, answers, st) && st.info.count <= BAN_THRESHOLD
    requires FromZero(times)
    ensures var now, v := times[|answers|], Step(st, times[|answers|]).1;
            && (v == Banned <==> exists j | 0 <= j < |answers| :: answers[j] == NewBan && now < times[j] + 60000)
            && (v == Next <==>
                && now >= 500
                && forall j | 0 <= j < |answers| ::
                     && (answers[j] == Next ==> now >= times[j] + 500)
                     && (answers[j] == NewBan ==> now >= times[j] + 60000))
  {
  }

  /** While the clock does not run backwards: a request is answered with the ban exactly if a ban
      started less than a minute ago, and is admitted exactly if none did, half a second has passed
      since zero, and none was admitted within the last half second. */
  lemma AdmittedExactlyWhen(times: seq<int>, i: nat)
    requires Monotone(times) && i < |times|
    ensures var answers := AnswersTo(times, i);
            && (Answer(times, i) == Banned <==>
                exists j | 0 <= j < i :: answers[j] == NewBan && times[i] < times[j] + 60000)
            && (Answer(times, i) == Next <==>
                && times[i] >= 500
                && forall j | 0 <= j < i ::
                     && (answers[j] == Next ==> times[i] >= times[j] + 500)
                     && (answers[j] == NewBan ==> times[i] >= times[j] + 60000))
  {
    Remembers(times, i);
    CountIsLow(times, i);
    KeptDecides(times, AnswersTo(times, i), Run(times, i));
  }

  /** The times are within half a second from `start`, in order. */
  ghost predicate Fast(times: seq<int>, from: nat, m: nat, start: int)
    requires from + m <= |times|
  {
    forall k | from <= k < from + m :: start <= times[k] < start + 500
  }

  lemma {:induction false} FastRequests(times: seq<int>, from: nat, m: nat, start: int)
    requires from + m <= |times| && Fast(times, from, m, start) && m <= 6
    requires var st := Run(times, from); st.info == RateInfo(0, start) && (st.ban == 0 || st.ban <= start)
    ensures var st := Run(times, from + m);
            st.info == RateInfo(m, start) && (m < 6 ==> st.ban == Run(times, from).ban)
    ensures forall k | from <= k < from + m :: Answer(times, k) == if k < from + 5 then TooMany else NewBan
  {
    if m > 0 {
      FastRequests(times, from, m - 1, start);
    }
  }

  /** After an admitted request, five that come within half a second of it are turned away, and the
      sixth starts a ban. So it is after zero. */
  lemma SixthFastRequestBans(times: seq<int>, i: nat, k: nat)
    requires i + 7 <= |times| && Answer(times, i) == Next && 1 <= k <= 6 && Fast(times, i + 1, 6, times[i])
    ensures Answer(times, i + k) == if k <= 5 then TooMany else NewBan
  {
    FastRequests(times, i + 1, 6, times[i]);
  }

  lemma SixthRequestAtZeroBans(times: seq<int>, k: nat)
    requires 6 <= |times| && k < 6 && Fast(times, 0, 6, 0)
    ensures Answer(times, k) == if k < 5 then TooMany else NewBan
  {
    FastRequests(times, 0, 6, 0);
  }

  // ----- Clocks that are set back -----

  /** No time lies more than `d` before an earlier one. */
  ghost predicate BackAtMost(times: seq<int>, d: nat) {
    forall i, j | 0 <= i < j < |times| :: times[i] - times[j] <= d
  }

  /** Set back by no more than this, the clock always leaves a ban time to run out. */
  const ENOUGH := 899500

  /** The last admitted time, if there is one, is that of an earlier request. */
  lemma {:induction false} LastIsEarlier(times: seq<int>, n: nat)
    requires n <= |times|
    ensures Run(times, n).info.last == 0 || exists i | 0 <= i < n :: times[i] == Run(times, n).info.last
  {
    if n > 0 {
      LastIsEarlier(times, n - 1);
    }
  }

  lemma NotFarBack(times: seq<int>, n: nat, d: nat)
    requires FromZero(times) && BackAtMost(times, d) && n < |times|
    ensures times[n] >= Run(times, n).info.last - d
  {
    LastIsEarlier(times, n);
  }

  /** Up to twenty fast requests, and from the sixth on each with a ban a minute later. */
  predicate Paced(st: KeyState, d: int) {
    && st.info.count <= BAN_THRESHOLD
    && (st.info.count >= 6 ==>
          st.ban > 0 && st.ban >= st.info.last - d + (st.info.count - 5) * BAN_DURATION_MS)
  }

  lemma StepIsPaced(st: KeyState, now: int, d: nat)
    requires d <= ENOUGH && Paced(st, d) && 0 <= now && now >= st.info.last - d
    ensures Paced(Step(st, now).0, d) && Step(st, now).1 != Suspicious
  {
  }

  lemma {:induction false} RunIsPaced(times: seq<int>, n: nat, d: nat)
    requires FromZero(times) && d <= ENOUGH && BackAtMost(times, d) && n <= |times|
    ensures Paced(Run(times, n), d)
  {
    if n > 0 {
      RunIsPaced(times, n - 1, d);
      NotFarBack(times, n - 1, d);
      StepIsPaced(Run(times, n - 1), times[n - 1], d);
    }
  }

  lemma NeverThatFarBack(times: seq<int>, i: nat, d: nat)
    requires FromZero(times) && d <= ENOUGH && BackAtMost(times, d) && i < |times|
    ensures Answer(times, i) != Suspicious
  {
    RunIsPaced(times, i, d);
    NotFarBack(times, i, d);
    StepIsPaced(Run(times, i), times[i], d);
  }

  /** A clock that starts at zero or later and never runs backwards. */
  ghost predicate Monotone(times: seq<int>) {
    FromZero(times) && BackAtMost(times, 0)
  }

  lemma {:induction false} CountIsLow(times: seq<int>, n: nat)
    requires Monotone(times) && n <= |times|
    ensures var KeyState(info, ban) := Run(times, n);
            && info.count <= 6
            && (info.count == 6 ==> ban >= info.last + BAN_DURATION_MS)
            && 0 <= info.last && (n > 0 ==> info.last <= times[n - 1])
  {
    if n > 0 {
      CountIsLow(times, n - 1);
      assert n > 1 ==> times[n - 2] - times[n - 1] <= 0;
    }
  }

  /** While the clock does not run backwards the fast-request count never exceeds 6, and the
      answer for a suspicious pattern, which needs more than 20, is never given. */
  lemma NeverSuspicious(times: seq<int>, i: nat)
    requires Monotone(times) && i < |times|
    ensures Run(times, i).info.count <= 6 && Answer(times, i) != Suspicious
  {
    CountIsLow(times, i);
    NeverThatFarBack(times, i, 0);
  }

  lemma {:induction false} PrefixRun(times: seq<int>, more: seq<int>, n: nat)
    requires n <= |times|
    ensures Run(times + more, n) == Run(times, n)
  {
    if n > 0 {
      PrefixRun(times, more, n - 1);
    }
  }

  const START := ENOUGH + 1

  /** The `n`-th request after the clock was set back to zero: each one as soon as a ban ends. */
  function SetBackTime(n: nat): int {
    if n <= 6 then 0 else (n - 6) * BAN_DURATION_MS
  }

  function SetBack(n: nat): (times: seq<int>)
    ensures |times| == n + 1
    ensures times[0] == START && forall i | 1 <= i <= n :: times[i] == SetBackTime(i)
  {
    if n == 0 then [START] else SetBack(n - 1) + [SetBackTime(n)]
  }

  function BanAfter(n: nat): int {
    if n < 6 then 0 else (n - 5) * BAN_DURATION_MS
  }

  lemma SetBackStep(n: nat)
    requires 1 <= n <= 21
    ensures Step(KeyState(RateInfo(n - 1, START), BanAfter(n - 1)), SetBackTime(n)).0
         == KeyState(RateInfo(n, START), BanAfter(n))
  {
  }

  lemma {:induction false} SetBackState(n: nat)
    requires n <= 21
    ensures Run(SetBack(n), n + 1) == KeyState(RateInfo(n, START), BanAfter(n))
  {
    if n == 0 {
      assert Run(SetBack(0), 0) == FRESH;
    } else {
      SetBackState(n - 1);
      PrefixRun(SetBack(n - 1), [SetBackTime(n)], n);
      SetBackStep(n);
    }
  }

  const FAR_BACK := SetBack(21) + [SetBackTime(22)]

  lemma FarBackFits(d: nat)
    requires d > ENOUGH
    ensures FromZero(FAR_BACK) && BackAtMost(FAR_BACK, d)
  {
    assert forall i | 1 <= i < |FAR_BACK| :: FAR_BACK[i] == SetBackTime(i);
    assert FAR_BACK[0] == START;
  }

  lemma FarBackIsSuspicious()
    ensures Answer(FAR_BACK, 22) == Suspicious
  {
    SetBackState(21);
    PrefixRun(SetBack(21), [SetBackTime(22)], 22);
  }

  /** A clock that can be set back by `d` milliseconds, and no further, lets the answer for a
      suspicious pattern be given exactly if `d` is more than 899500. */
  lemma SuspiciousExactlyWhen(d: nat)
    ensures (exists times, i: nat :: FromZero(times) && BackAtMost(times, d) && i < |times| && Answer(times, i) == Suspicious)
       <==> d > 899500
  {
    if d <= ENOUGH {
      forall times, i: nat | FromZero(times) && BackAtMost(times, d) && i < |times|
        ensures Answer(times, i) != Suspicious
      {
        NeverThatFarBack(times, i, d);
      }
    } else {
      FarBackFits(d);
      FarBackIsSuspicious();
    }
  }

  // ----- Traffic of all keys -----

  datatype Call = Call(key: string, now: int)

  /** The times of the calls with this key among the first `n`. */
  function TimesOf(calls: seq<Call>, n: nat, key: string): seq<int>
    requires n <= |calls|
  {
    if n == 0 then []
    else
      var before := TimesOf(calls, n - 1, key);
      if calls[n - 1].key == key then before + [calls[n - 1].now] else before
  }

  /** The state of one key when all other traffic is left out. */
  function Alone(calls: seq<Call>, n: nat, key: string): KeyState
    requires n <= |calls|
  {
    var times := TimesOf(calls, n, key);
    Run(times, |times|)
  }

  lemma AloneStep(calls: seq<Call>, n: nat, key: string)
    requires n < |calls|
    ensures Alone(calls, n + 1, key)
         == if calls[n].key == key then Step(Alone(calls, n, key), calls[n].now).0 else Alone(calls, n, key)
  {
    var times := TimesOf(calls, n, key);
    PrefixRun(times, [calls[n].now], |times|);
  }

  lemma {:induction false} TimesGrow(calls: seq<Call>, m: nat, n: nat, key: string)
    requires m <= n <= |calls|
    ensures TimesOf(calls, m, key) <= TimesOf(calls, n, key)
  {
    if m < n {
      TimesGrow(calls, m, n - 1, key);
    }
  }

  /** Call `i` has this place among the calls with its key. */
  function PlaceOf(calls: seq<Call>, i: nat): nat
    requires i < |calls|
  {
    |TimesOf(calls, i, calls[i].key)|
  }

  lemma PlaceInTrace(calls: seq<Call>, i: nat)
    requires i < |calls|
    ensures var key, now := calls[i].key, calls[i].now;
            var times, k := TimesOf(calls, |calls|, key), PlaceOf(calls, i);
            k < |times| && times[k] == now && Answer(times, k) == Step(Alone(calls, i, key), now).1
  {
    var key := calls[i].key;
    TimesGrow(calls, i + 1, |calls|, key);
    var part, times := TimesOf(calls, i, key), TimesOf(calls, |calls|, key);
    assert part <= TimesOf(calls, i + 1, key) <= times;
    assert times == part + times[|part|..];
    PrefixRun(part, times[|part|..], |part|);
  }

  /** The limiter holds for every key what its own calls alone would have left. */
  ghost predicate Separate(limiter: Limiter, calls: seq<Call>, n: nat)
    requires n <= |calls|
    reads limiter
  {
    forall key :: limiter.StateOf(key) == Alone(calls, n, key)
  }

  method ServeNext(limiter: Limiter, calls: seq<Call>, n: nat) returns (v: Verdict)
    requires n < |calls| && Separate(limiter, calls, n)
    modifies limiter
    ensures Separate(limiter, calls, n + 1)
    ensures v == Step(Alone(calls, n, calls[n].key), calls[n].now).1
  {
    v := limiter.Check(calls[n].key, calls[n].now);
    forall key ensures limiter.StateOf(key) == Alone(calls, n + 1, key) {
      AloneStep(calls, n, key);
    }
  }

  /** The verdict is the one that the call's place in the trace of its own key gets. */
  ghost predicate AsInTrace(calls: seq<Call>, i: nat, v: Verdict)
    requires i < |calls|
  {
    var times := TimesOf(calls, |calls|, calls[i].key);
    PlaceOf(calls, i) < |times| && times[PlaceOf(calls, i)] == calls[i].now && v == Answer(times, PlaceOf(calls, i))
  }

  /** Two calls of one key, admitted in whatever traffic, are at least half a second apart. */
  lemma ServedApart(calls: seq<Call>, i: nat, j: nat)
    requires i < j < |calls| && calls[i].key == calls[j].key
    requires AsInTrace(calls, i, Next) && AsInTrace(calls, j, Next)
    ensures calls[j].now - calls[i].now >= 500
  {
    TimesGrow(calls, i + 1, j, calls[i].key);
    AdmittedApart(TimesOf(calls, |calls|, calls[i].key), PlaceOf(calls, i), PlaceOf(calls, j));
  }

  /** Serve the calls in order. Each one is answered as at its place in the trace of its own key,
      so what is proved of one key's trace holds of its calls in any traffic. */
  method Serve(calls: seq<Call>) returns (verdicts: seq<Verdict>)
    ensures |verdicts| == |calls|
    ensures forall i | 0 <= i < |calls| :: AsInTrace(calls, i, verdicts[i])
  {
    var limiter := new Limiter();
    verdicts := [];
    var n := 0;
    while n < |calls|
      invariant n <= |calls| && |verdicts| == n
      invariant Separate(limiter, calls, n)
      invariant forall i | 0 <= i < n :: AsInTrace(calls, i, verdicts[i])
    {
      var v := ServeNext(limiter, calls, n);
      PlaceInTrace(calls, n);
      verdicts := verdicts + [v];
      n := n + 1;
    }
  }
}

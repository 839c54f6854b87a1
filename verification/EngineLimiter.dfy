/** The per-instance engine limiter (src/middleware/engine-limiter.ts). */
module EngineLimiter {
  import opened Wrappers

  datatype Engine = Gen59 | Omega | Quantum | Hpe | Other

  datatype EngineState = EngineState(lastCall: int, callCount: nat)

  datatype InstanceState = InstanceState(gen59: EngineState, omega: EngineState, quantum: EngineState, hpe: EngineState)

  const GEN59_COOLDOWN := 1500
  const OMEGA_MAX_CALLS := 20
  const WINDOW := 60 * 1000
  const PROTECTIVE_DELAY := 300

  const FRESH := EngineState(0, 0)

  /** The name in the request body; any other name is let through without a check. */
  function EngineNamed(name: string): Engine {
    if name == "gen59" then Gen59
    else if name == "omega" then Omega
    else if name == "quantum" then Quantum
    else if name == "hpe" then Hpe
    else Other
  }

  // ----- One engine of one instance -----

  function Delay(engine: Engine): int {
    if engine.Gen59? then GEN59_COOLDOWN else PROTECTIVE_DELAY
  }

  /** What a call at time `now` leaves behind. */
  function After(engine: Engine, st: EngineState, now: int): EngineState {
    match engine
    case Other => st
    case Omega => if now - st.lastCall > WINDOW then EngineState(now, 1) else st.(callCount := st.callCount + 1)
    case _ => if now - st.lastCall < Delay(engine) then st else st.(lastCall := now)
  }

  /** Whether it is let through. */
  predicate Admits(engine: Engine, st: EngineState, now: int) {
    match engine
    case Other => true
    case Omega => After(engine, st, now).callCount <= OMEGA_MAX_CALLS
    case _ => now - st.lastCall >= Delay(engine)
  }

  // ----- The middleware -----

  function Get(s: InstanceState, engine: Engine): EngineState {
    match engine
    case Gen59 => s.gen59
    case Omega => s.omega
    case Quantum => s.quantum
    case Hpe => s.hpe
    case Other => FRESH
  }

  /** The state of one engine of one instance; an instance not seen yet starts fresh. */
  function StateOf(states: map<string, InstanceState>, instance: string, engine: Engine): EngineState {
    if instance in states then Get(states[instance], engine) else FRESH
  }

  datatype Verdict = EngineRequired | InstanceRequired | Next | Wait(ms: int) | LimitExceeded

  class Limiter {
    var states: map<string, InstanceState>

    constructor ()
      ensures states == map[]
    {
      states := map[];
    }

    method GetInstanceState(instance: string) returns (s: InstanceState)
      modifies this
      ensures states == old(states)[instance := s]
      ensures forall e :: Get(s, e) == StateOf(old(states), instance, e)
    {
      if instance !in states {
        states := states[instance := InstanceState(FRESH, FRESH, FRESH, FRESH)];
      }
      s := states[instance];
    }

    /** `aiEngineLimiter`. Only the state of the named engine of the named instance moves, and
        it moves as `After` says; the call is let through when `Admits` says so, and the
        wait reported otherwise is the rest of the delay. */
    method Check(name: string, instance: string, now: int) returns (v: Verdict)
      modifies this
      ensures name == "" ==> v == EngineRequired
      ensures name != "" && instance == "" ==> v == InstanceRequired
      ensures name == "" || instance == "" ==> states == old(states)
      ensures name != "" && instance != "" ==>
                var e := EngineNamed(name);
                var st := StateOf(old(states), instance, e);
                && (v.Next? <==> Admits(e, st, now))
                && (v.Wait? ==> !e.Omega? && v.ms == st.lastCall + Delay(e) - now)
                && (v.LimitExceeded? ==> e.Omega?)
                && v in {Next, LimitExceeded, Wait(st.lastCall + Delay(e) - now)}
                && (name !in {"gen59", "omega", "quantum", "hpe"} ==> v == Next)
                && (e != Other ==> StateOf(states, instance, e) == After(e, st, now))
                && forall i, f | (i, f) != (instance, e) :: StateOf(states, i, f) == StateOf(old(states), i, f)
    {
      if name == "" {
        return EngineRequired;
      }
      if instance == "" {
        return InstanceRequired;
      }
      var s := GetInstanceState(instance);
      var engine := EngineNamed(name);
      if engine == Gen59 {
        var diff := now - s.gen59.lastCall;
        if diff < GEN59_COOLDOWN {
          return Wait(GEN59_COOLDOWN - diff);
        }
        s := s.(gen59 := s.gen59.(lastCall := now));
      }
      if engine == Omega {
        if now - s.omega.lastCall > WINDOW {
          s := s.(omega := EngineState(now, 0));
        }
        s := s.(omega := s.omega.(callCount := s.omega.callCount + 1));
        states := states[instance := s];
        if s.omega.callCount > OMEGA_MAX_CALLS {
          return LimitExceeded;
        }
      }
      if engine == Quantum || engine == Hpe {
        var diff := now - Get(s, engine).lastCall;
        if diff < PROTECTIVE_DELAY {
          return Wait(PROTECTIVE_DELAY - diff);
        }
        if engine == Quantum {
          s := s.(quantum := s.quantum.(lastCall := now));
        } else {
          s := s.(hpe := s.hpe.(lastCall := now));
        }
      }
      states := states[instance := s];
      return Next;
    }
  }

  // ----- Traces of one engine of one instance -----

  /** The state after the first `n` of these calls. */
  function Run(engine: Engine, times: seq<int>, n: nat): EngineState
    requires n <= |times|
  {
    if n == 0 then FRESH else After(engine, Run(engine, times, n - 1), times[n - 1])
  }

  predicate Admitted(engine: Engine, times: seq<int>, i: nat)
    requires i < |times|
  {
    Admits(engine, Run(engine, times, i), times[i])
  }

  lemma {:induction false} LastAdmitted(engine: Engine, times: seq<int>, i: nat, n: nat)
    requires engine in {Gen59, Quantum, Hpe} && i < n <= |times| && Admitted(engine, times, i)
    ensures Run(engine, times, n).lastCall >= times[i]
  {
    if i + 1 < n {
      LastAdmitted(engine, times, i, n - 1);
    }
  }

  /** Any two admitted calls of a delayed engine are at least its delay apart, whatever the
      clock does in between. */
  lemma AdmittedApart(engine: Engine, times: seq<int>, i: nat, j: nat)
    requires engine in {Gen59, Quantum, Hpe} && i < j < |times|
    requires Admitted(engine, times, i) && Admitted(engine, times, j)
    ensures times[j] - times[i] >= if engine.Gen59? then 1500 else 300
  {
    LastAdmitted(engine, times, i, j);
  }

  /** Number of admitted calls with index in `[i, j)`. */
  function CountAdmitted(engine: Engine, times: seq<int>, i: nat, j: nat): nat
    requires i <= j <= |times|
  {
    if i == j then 0
    else CountAdmitted(engine, times, i, j - 1) + if Admitted(engine, times, j - 1) then 1 else 0
  }

  function Counted(st: EngineState): nat {
    if st.callCount < OMEGA_MAX_CALLS then st.callCount else OMEGA_MAX_CALLS
  }

  lemma {:induction false} WindowOnlyMoves(times: seq<int>, i: nat, j: nat)
    requires i <= j <= |times|
    ensures Run(Omega, times, i).lastCall <= Run(Omega, times, j).lastCall
  {
    if i < j {
      WindowOnlyMoves(times, i, j - 1);
    }
  }

  lemma {:induction false} CountedInWindow(times: seq<int>, i: nat, j: nat)
    requires i < j <= |times|
    requires Run(Omega, times, i + 1).lastCall == Run(Omega, times, j).lastCall
    ensures CountAdmitted(Omega, times, i, j) <= Counted(Run(Omega, times, j))
  {
    if i + 1 < j {
      WindowOnlyMoves(times, i + 1, j - 1);
      WindowOnlyMoves(times, j - 1, j);
      CountedInWindow(times, i, j - 1);
    }
  }

  /** At most 20 of the calls counted in one window are admitted. */
  lemma OmegaWindow(times: seq<int>, i: nat, j: nat)
    requires i < j <= |times|
    requires Run(Omega, times, i + 1).lastCall == Run(Omega, times, j).lastCall
    ensures CountAdmitted(Omega, times, i, j) <= 20
  {
    CountedInWindow(times, i, j);
  }

  /** A clock that starts at zero or later and never runs backwards. */
  ghost predicate Monotone(times: seq<int>) {
    && (times != [] ==> times[0] >= 0)
    && forall i, j | 0 <= i < j < |times| :: times[i] <= times[j]
  }

  lemma {:induction false} CountSplit(engine: Engine, times: seq<int>, i: nat, m: nat, j: nat)
    requires i <= m <= j <= |times|
    ensures CountAdmitted(engine, times, i, j) == CountAdmitted(engine, times, i, m) + CountAdmitted(engine, times, m, j)
  {
    if m < j {
      CountSplit(engine, times, i, m, j - 1);
    }
  }

  lemma {:induction false} WindowStartsBefore(times: seq<int>, n: nat)
    requires Monotone(times) && 0 < n <= |times|
    ensures Run(Omega, times, n).lastCall <= times[n - 1]
  {
    if n > 1 {
      WindowStartsBefore(times, n - 1);
    }
  }

  /** First call that is counted in the same window as call `j - 1`. */
  lemma {:induction false} WindowStart(times: seq<int>, j: nat) returns (m: nat)
    requires 0 < j <= |times|
    ensures m < j && Run(Omega, times, m + 1).lastCall == Run(Omega, times, j).lastCall
    ensures m > 0 ==> times[m] - Run(Omega, times, m).lastCall > WINDOW && Run(Omega, times, m + 1).lastCall == times[m]
  {
    if j == 1 {
      m := 0;
    } else if Run(Omega, times, j - 1).lastCall == Run(Omega, times, j).lastCall {
      m := WindowStart(times, j - 1);
    } else {
      m := j - 1;
    }
  }

  /** Of the calls made within any 60 seconds, both ends included, at most 40 are admitted. */
  lemma OmegaAnyMinute(times: seq<int>, i: nat, j: nat)
    requires Monotone(times) && i < j <= |times| && times[j - 1] - times[i] <= 60000
    ensures CountAdmitted(Omega, times, i, j) <= 40
  {
    var m := WindowStart(times, j);
    if m <= i {
      WindowOnlyMoves(times, m + 1, i + 1);
      WindowOnlyMoves(times, i + 1, j);
      OmegaWindow(times, i, j);
    } else {
      OmegaWindow(times, m, j);
      CountSplit(Omega, times, i, m, j);
      // The window before this one opened with call k, more than a minute before call m.
      var k := WindowStart(times, m);
      assert k <= i;
      WindowOnlyMoves(times, k + 1, i + 1);
      WindowOnlyMoves(times, i + 1, m);
      OmegaWindow(times, i, m);
    }
  }

  lemma {:induction false} CountSince(times: seq<int>, m: nat, j: nat)
    requires m < j <= |times|
    requires Run(Omega, times, m + 1).lastCall == Run(Omega, times, j).lastCall
    requires Run(Omega, times, m + 1).callCount == 1
    ensures Run(Omega, times, j).callCount == j - m
  {
    if m + 1 < j {
      WindowOnlyMoves(times, m + 1, j - 1);
      WindowOnlyMoves(times, j - 1, j);
      CountSince(times, m, j - 1);
    }
  }

  /** A call is refused only if the one twenty calls before it was made no more than a minute ago. */
  lemma OmegaRefusedWhenBusy(times: seq<int>, i: nat)
    requires Monotone(times) && i < |times| && !Admitted(Omega, times, i)
    ensures i >= 20 && times[i] - times[i - 20] <= 60000
  {
    if i > 0 {
      var m := WindowStart(times, i);
      CountSince(times, m, i);
      WindowStartsBefore(times, m + 1);
    }
  }

  // ----- Traces of all instances -----

  datatype Call = Call(name: string, instance: string, now: int)

  /** The call concerns this engine of this instance; one that leaves either out concerns none. */
  predicate Concerns(c: Call, instance: string, engine: Engine) {
    c.name != "" && c.instance != "" && c.instance == instance && EngineNamed(c.name) == engine
  }

  /** The times of the calls for one engine of one instance among the first `n` calls. */
  function TimesOf(calls: seq<Call>, n: nat, instance: string, engine: Engine): seq<int>
    requires n <= |calls|
  {
    if n == 0 then []
    else
      var before, c := TimesOf(calls, n - 1, instance, engine), calls[n - 1];
      if Concerns(c, instance, engine) then before + [c.now] else before
  }

  /** The state of one engine of one instance when all other traffic is left out. */
  function Alone(calls: seq<Call>, n: nat, instance: string, engine: Engine): EngineState
    requires n <= |calls|
  {
    var times := TimesOf(calls, n, instance, engine);
    Run(engine, times, |times|)
  }

  lemma {:induction false} RunPrefix(engine: Engine, times: seq<int>, now: int, n: nat)
    requires n <= |times|
    ensures Run(engine, times + [now], n) == Run(engine, times, n)
  {
    if n > 0 {
      RunPrefix(engine, times, now, n - 1);
    }
  }

  lemma AloneStep(calls: seq<Call>, n: nat, instance: string, engine: Engine)
    requires n < |calls|
    ensures var st := Alone(calls, n, instance, engine);
            Alone(calls, n + 1, instance, engine)
            == if Concerns(calls[n], instance, engine) then After(engine, st, calls[n].now) else st
  {
    var times := TimesOf(calls, n, instance, engine);
    RunPrefix(engine, times, calls[n].now, |times|);
  }

  /** Serve the calls in order. Each one gets the verdict that its engine and instance would
      give if all other traffic were absent. */
  method Serve(calls: seq<Call>) returns (verdicts: seq<Verdict>)
    ensures |verdicts| == |calls|
    ensures forall i | 0 <= i < |calls| :: verdicts[i].Next? <==> AdmittedAlone(calls, i)
  {
    var limiter := new Limiter();
    verdicts := [];
    var n := 0;
    while n < |calls|
      invariant n <= |calls| && |verdicts| == n
      invariant Separate(limiter.states, calls, n)
      invariant forall i | 0 <= i < n :: verdicts[i].Next? <==> AdmittedAlone(calls, i)
    {
      var v := limiter.Check(calls[n].name, calls[n].instance, calls[n].now);
      verdicts := verdicts + [v];
      forall instance, engine ensures Alone(calls, n + 1, instance, engine)
        == if Concerns(calls[n], instance, engine)
           then After(engine, Alone(calls, n, instance, engine), calls[n].now) else Alone(calls, n, instance, engine)
      {
        AloneStep(calls, n, instance, engine);
      }
      n := n + 1;
    }
  }

  predicate AdmittedAlone(calls: seq<Call>, i: nat)
    requires i < |calls|
  {
    var engine := EngineNamed(calls[i].name);
    && Concerns(calls[i], calls[i].instance, engine)
    && Admits(engine, Alone(calls, i, calls[i].instance, engine), calls[i].now)
  }

  // ----- Who is admitted, in any traffic -----

  /** The call is for this engine, by its name, of this instance. */
  predicate For(c: Call, instance: string, name: string) {
    c.instance == instance && c.name == name
  }

  lemma NamesAre(c: Call, instance: string)
    requires instance != ""
    ensures Concerns(c, instance, Gen59) <==> For(c, instance, "gen59")
    ensures Concerns(c, instance, Omega) <==> For(c, instance, "omega")
    ensures Concerns(c, instance, Quantum) <==> For(c, instance, "quantum")
    ensures Concerns(c, instance, Hpe) <==> For(c, instance, "hpe")
  {
  }

  /** Without engine or instance a call is turned away; one for an engine of another name is let through. */
  lemma OtherNamesPass(calls: seq<Call>, i: nat)
    requires i < |calls|
    ensures calls[i].name == "" || calls[i].instance == "" ==> !AdmittedAlone(calls, i)
    ensures calls[i].name != "" && calls[i].instance != "" && calls[i].name !in {"gen59", "omega", "quantum", "hpe"} ==>
              AdmittedAlone(calls, i)
  {
  }

  /** The last call of the line among the first `n` that was admitted, if there is one, is call `j`. */
  ghost predicate LastIs(calls: seq<Call>, n: nat, instance: string, name: string, j: Option<nat>)
    requires n <= |calls|
  {
    && (j.Some? ==> j.value < n && For(calls[j.value], instance, name) && AdmittedAlone(calls, j.value))
    && forall k | (if j.Some? then j.value + 1 else 0) <= k < n && For(calls[k], instance, name) :: !AdmittedAlone(calls, k)
  }

  lemma {:induction false} LastCallIs(calls: seq<Call>, n: nat, instance: string, engine: Engine, name: string, j: Option<nat>)
    requires n <= |calls| && instance != "" && LastIs(calls, n, instance, name, j)
    requires (engine, name) in {(Gen59, "gen59"), (Quantum, "quantum"), (Hpe, "hpe")}
    ensures Alone(calls, n, instance, engine).lastCall == if j.Some? then calls[j.value].now else 0
  {
    if n > 0 {
      NamesAre(calls[n - 1], instance);
      AloneStep(calls, n - 1, instance, engine);
      if j != Some(n - 1) {
        LastCallIs(calls, n - 1, instance, engine, name, j);
      }
    }
  }

  /** A call for an engine with a delay is admitted exactly if that delay has passed since the last
      admitted call for that engine of that instance, or since zero if there is none. */
  lemma DelayedExactlyWhen(calls: seq<Call>, i: nat, j: Option<nat>)
    requires i < |calls| && calls[i].instance != "" && calls[i].name in {"gen59", "quantum", "hpe"}
    requires LastIs(calls, i, calls[i].instance, calls[i].name, j)
    ensures var last := if j.Some? then calls[j.value].now else 0;
            AdmittedAlone(calls, i) <==> calls[i].now - last >= if calls[i].name == "gen59" then 1500 else 300
  {
    LastCallIs(calls, i, calls[i].instance, EngineNamed(calls[i].name), calls[i].name, j);
  }

  /** The window of the omega calls of an instance: its start moves to a call more than a minute after
      it, and the calls of the window are counted. */
  ghost predicate Windows(calls: seq<Call>, instance: string, starts: seq<int>, counts: seq<nat>) {
    && |starts| == |counts| == |calls|
    && forall i | 0 <= i < |calls| :: NextWindow(calls[i], instance, if i == 0 then 0 else starts[i - 1],
                                                 if i == 0 then 0 else counts[i - 1], starts[i], counts[i])
  }

  ghost predicate NextWindow(c: Call, instance: string, start: int, count: nat, newStart: int, newCount: nat) {
    if !For(c, instance, "omega") then newStart == start && newCount == count
    else if c.now > start + 60000 then newStart == c.now && newCount == 1
    else newStart == start && newCount == count + 1
  }

  lemma {:induction false} WindowIs(calls: seq<Call>, n: nat, instance: string, starts: seq<int>, counts: seq<nat>)
    requires n <= |calls| && instance != "" && Windows(calls, instance, starts, counts)
    ensures Alone(calls, n, instance, Omega) ==
            if n == 0 then FRESH else EngineState(starts[n - 1], counts[n - 1])
  {
    if n > 0 {
      WindowIs(calls, n - 1, instance, starts, counts);
      NamesAre(calls[n - 1], instance);
      AloneStep(calls, n - 1, instance, Omega);
    }
  }

  /** An omega call is admitted exactly if it is one of the first twenty of its window. */
  lemma OmegaExactlyWhen(calls: seq<Call>, i: nat, starts: seq<int>, counts: seq<nat>)
    requires i < |calls| && calls[i].instance != "" && calls[i].name == "omega"
    requires Windows(calls, calls[i].instance, starts, counts)
    ensures AdmittedAlone(calls, i) <==> counts[i] <= 20
  {
    WindowIs(calls, i + 1, calls[i].instance, starts, counts);
    AloneStep(calls, i, calls[i].instance, Omega);
  }

  ghost predicate Separate(states: map<string, InstanceState>, calls: seq<Call>, n: nat)
    requires n <= |calls|
  {
    forall instance, engine | engine != Other ::
      StateOf(states, instance, engine) == Alone(calls, n, instance, engine)
  }
}

/** The circuit breaker's state machine. The class works on the shared state in place, as the breaker
    does under its lock; the functions say what each operation makes of the state's value. Times are
    whole milliseconds; the failure ratio is compared as a rational. */
module Breaker {
  import opened Common

  datatype Mode = Closed | Open | HalfOpen

  datatype Trip =
    | Consecutive(n: nat)
    | Ratio(window: nat, num: nat, den: nat, minCalls: nat)
    | Windowed(failures: nat, period: nat)

  datatype Config = Config(trip: Trip, cooldown: nat, trials: nat, required: nat)

  /** What the builder accepts, after clamping. */
  predicate Usable(cfg: Config) {
    && 1 <= cfg.required <= cfg.trials
    && match cfg.trip
       case Consecutive(n) => n >= 1
       case Ratio(window, num, den, minCalls) => window >= 1 && 0 <= num <= den && den > 0 && minCalls <= window
       case Windowed(failures, _) => failures >= 1
  }

  datatype Shared = Shared(
    mode: Mode,
    generation: nat,
    consecutive: nat,
    outcomes: seq<bool>,
    failureTimes: seq<nat>,
    inFlight: nat,
    traitProbes: nat,
    successes: nat,
    openUntil: nat)

  datatype Ticket = Ticket(generation: nat, probe: bool)

  datatype Admission = Admitted(ticket: Ticket) | Shed(wait: nat)

  const INITIAL: Shared := Shared(Closed, 0, 0, [], [], 0, 0, 0, 0)

  // --- What the operations mean --------------------------------------------------------------------

  function Moved(s: Shared, to: Mode): Shared {
    s.(mode := to, generation := s.generation + 1)
  }

  function CountersReset(s: Shared): Shared {
    s.(consecutive := 0, outcomes := [], failureTimes := [], inFlight := 0, traitProbes := 0, successes := 0)
  }

  function Admitting(cfg: Config, s: Shared, now: nat): (Admission, Shared) {
    match s.mode
    case Closed => (Admitted(Ticket(s.generation, false)), s)
    case Open =>
      if now >= s.openUntil then
        var t := Moved(s, HalfOpen).(inFlight := 1, traitProbes := 0, successes := 0);
        (Admitted(Ticket(t.generation, true)), t)
      else (Shed(s.openUntil - now), s)
    case HalfOpen =>
      if s.inFlight < cfg.trials then
        (Admitted(Ticket(s.generation, true)), s.(inFlight := s.inFlight + 1))
      else (Shed(0), s)
  }

  function AdmittingTrait(cfg: Config, s: Shared, now: nat): (Admission, Shared) {
    var (a, t) := Admitting(cfg, s, now);
    (a, if a.Admitted? && a.ticket.probe then t.(traitProbes := t.traitProbes + 1) else t)
  }

  function Aborted(s: Shared, ticket: Ticket, viaTrait: bool): Shared {
    if ticket.probe && s.generation == ticket.generation && s.mode == HalfOpen then
      s.(inFlight := Monus(s.inFlight, 1), traitProbes := if viaTrait then Monus(s.traitProbes, 1) else s.traitProbes)
    else s
  }

  function Opened(cfg: Config, s: Shared, now: nat): Shared {
    Moved(s, Open).(openUntil := SatAdd(now, cfg.cooldown), inFlight := 0, traitProbes := 0, successes := 0)
  }

  function LastN<T>(s: seq<T>, n: nat): seq<T> {
    if |s| <= n then s else s[|s| - n..]
  }

  function Cutoff(now: nat, period: nat): nat {
    Monus(now, period)
  }

  function DropBefore(times: seq<nat>, cutoff: nat): seq<nat> {
    if times != [] && times[0] < cutoff then DropBefore(times[1..], cutoff) else times
  }

  function Recorded(trip: Trip, s: Shared, failure: bool, now: nat): Shared {
    match trip
    case Consecutive(_) => s
    case Ratio(window, _, _, _) => s.(outcomes := LastN(s.outcomes + [failure], window))
    case Windowed(_, period) =>
      s.(failureTimes := DropBefore(s.failureTimes + if failure then [now] else [], Cutoff(now, period)))
  }

  function Failures(outcomes: seq<bool>): nat {
    if outcomes == [] then 0
    else Failures(outcomes[..|outcomes| - 1]) + if outcomes[|outcomes| - 1] then 1 else 0
  }

  function CountFrom(times: seq<nat>, cutoff: nat): nat {
    if times == [] then 0
    else CountFrom(times[..|times| - 1], cutoff) + if times[|times| - 1] >= cutoff then 1 else 0
  }

  predicate Tripped(trip: Trip, s: Shared, now: nat) {
    match trip
    case Consecutive(n) => s.consecutive >= n
    case Ratio(_, num, den, minCalls) =>
      && |s.outcomes| > 0 && |s.outcomes| >= minCalls
      && Failures(s.outcomes) * den >= num * |s.outcomes|
    case Windowed(failures, period) => CountFrom(s.failureTimes, Cutoff(now, period)) >= failures
  }

  function ClosedOutcome(cfg: Config, s: Shared, success: bool, now: nat): Shared {
    var counted := s.(consecutive := if success then 0 else s.consecutive + 1);
    var r := Recorded(cfg.trip, counted, !success, now);
    if !success && Tripped(cfg.trip, r, now) then Opened(cfg, r, now) else r
  }

  function TrialOutcome(cfg: Config, s: Shared, success: bool, now: nat, probe: bool): Shared {
    var freed := if probe then s.(inFlight := Monus(s.inFlight, 1)) else s;
    if !success then Opened(cfg, freed, now)
    else if s.successes + 1 >= cfg.required then Moved(CountersReset(freed), Closed)
    else freed.(successes := s.successes + 1)
  }

  function Outcome(cfg: Config, s: Shared, success: bool, now: nat, probe: bool): Shared {
    match s.mode
    case HalfOpen => TrialOutcome(cfg, s, success, now, probe)
    case Closed => ClosedOutcome(cfg, s, success, now)
    case Open => s
  }

  function Settled(cfg: Config, s: Shared, ticket: Ticket, success: bool, now: nat): Shared {
    if s.generation != ticket.generation then s else Outcome(cfg, s, success, now, ticket.probe)
  }

  /** An outcome without a ticket is taken for a trait trial's, if there is one. */
  function Reported(cfg: Config, s: Shared, success: bool, now: nat): Shared {
    var probe := s.mode == HalfOpen && s.traitProbes > 0;
    Outcome(cfg, if probe then s.(traitProbes := s.traitProbes - 1) else s, success, now, probe)
  }

  /** A refund is taken for that of a trait trial, if there is one. */
  function TraitReleased(s: Shared): Shared {
    if s.mode == HalfOpen && s.traitProbes > 0
    then s.(traitProbes := s.traitProbes - 1, inFlight := Monus(s.inFlight, 1)) else s
  }

  // --- The breaker -------------------------------------------------------------------------------------

  class CircuitBreaker {
    const config: Config
    var mode: Mode
    var generation: nat
    var consecutive: nat
    var outcomes: seq<bool>
    var failureTimes: seq<nat>
    var inFlight: nat
    var traitProbes: nat
    var successes: nat
    var openUntil: nat

    constructor (config: Config)
      requires Usable(config)
      ensures this.config == config && State() == INITIAL
    {
      this.config := config;
      mode, generation, consecutive, outcomes, failureTimes := Closed, 0, 0, [], [];
      inFlight, traitProbes, successes, openUntil := 0, 0, 0, 0;
    }

    function State(): Shared
      reads this
    {
      Shared(mode, generation, consecutive, outcomes, failureTimes, inFlight, traitProbes, successes, openUntil)
    }

    method Transition(to: Mode)
      modifies this`mode, this`generation
      ensures State() == Moved(old(State()), to)
    {
      mode := to;
      generation := generation + 1;
    }

    method ResetCounters()
      modifies this
      ensures State() == CountersReset(old(State()))
    {
      consecutive, outcomes, failureTimes := 0, [], [];
      inFlight, traitProbes, successes := 0, 0, 0;
    }

    method Admit(now: nat, viaTrait: bool) returns (a: Admission)
      modifies this
      ensures (a, State()) == if viaTrait then AdmittingTrait(config, old(State()), now) else Admitting(config, old(State()), now)
    {
      if mode == Closed {
        a := Admitted(Ticket(generation, false));
      } else if mode == Open && now >= openUntil {
        Transition(HalfOpen);
        inFlight, traitProbes, successes := 1, 0, 0;
        a := Admitted(Ticket(generation, true));
      } else if mode == Open {
        a := Shed(openUntil - now);
      } else if inFlight < config.trials {
        inFlight := inFlight + 1;
        a := Admitted(Ticket(generation, true));
      } else {
        a := Shed(0);
      }
      if a.Admitted? && a.ticket.probe && viaTrait {
        traitProbes := traitProbes + 1;
      }
    }

    method Abort(ticket: Ticket, viaTrait: bool)
      modifies this
      ensures State() == Aborted(old(State()), ticket, viaTrait)
    {
      if !ticket.probe {
        return;
      }
      if generation == ticket.generation && mode == HalfOpen {
        inFlight := Monus(inFlight, 1);
        if viaTrait {
          traitProbes := Monus(traitProbes, 1);
        }
      }
    }

    method OpenUp(now: nat)
      modifies this
      ensures State() == Opened(config, old(State()), now)
    {
      openUntil := SatAdd(now, config.cooldown);
      inFlight, traitProbes, successes := 0, 0, 0;
      Transition(Open);
    }

    /** Appends an outcome to what the trip condition needs, and drops what it no longer does. */
    method RecordOutcome(failure: bool, now: nat)
      requires Usable(config)
      modifies this
      ensures State() == Recorded(config.trip, old(State()), failure, now)
    {
      match config.trip {
        case Consecutive(_) =>
        case Ratio(window, _, _, _) =>
          outcomes := outcomes + [failure];
          ghost var all := outcomes;
          ghost var before := State();
          while |outcomes| > window
            invariant State() == before.(outcomes := outcomes)
            invariant LastN(outcomes, window) == LastN(all, window)
            decreases |outcomes|
          {
            outcomes := outcomes[1..];
          }
        case Windowed(_, period) =>
          if failure {
            failureTimes := failureTimes + [now];
          }
          var cutoff := Cutoff(now, period);
          ghost var all := failureTimes;
          ghost var before := State();
          assert all == old(failureTimes) + if failure then [now] else [];
          while failureTimes != [] && failureTimes[0] < cutoff
            invariant State() == before.(failureTimes := failureTimes)
            invariant DropBefore(failureTimes, cutoff) == DropBefore(all, cutoff)
            decreases |failureTimes|
          {
            failureTimes := failureTimes[1..];
          }
      }
    }

    method HasTripped(now: nat) returns (tripped: bool)
      ensures tripped == Tripped(config.trip, State(), now)
    {
      match config.trip {
        case Consecutive(n) =>
          tripped := consecutive >= n;
        case Ratio(_, num, den, minCalls) =>
          if |outcomes| == 0 || |outcomes| < minCalls {
            return false;
          }
          var failures := 0;
          for i := 0 to |outcomes|
            invariant failures == Failures(outcomes[..i])
          {
            assert outcomes[..i + 1][..i] == outcomes[..i];
            if outcomes[i] {
              failures := failures + 1;
            }
          }
          assert outcomes[..|outcomes|] == outcomes;
          tripped := failures * den >= num * |outcomes|;
        case Windowed(limit, period) =>
          var cutoff := Cutoff(now, period);
          var recent := 0;
          for i := 0 to |failureTimes|
            invariant recent == CountFrom(failureTimes[..i], cutoff)
          {
            assert failureTimes[..i + 1][..i] == failureTimes[..i];
            if failureTimes[i] >= cutoff {
              recent := recent + 1;
            }
          }
          assert failureTimes[..|failureTimes|] == failureTimes;
          tripped := recent >= limit;
      }
    }

    method Apply(success: bool, now: nat, probe: bool)
      requires Usable(config)
      modifies this
      ensures State() == Outcome(config, old(State()), success, now, probe)
    {
      if mode == HalfOpen {
        if probe {
          inFlight := Monus(inFlight, 1);
        }
        if success {
          successes := successes + 1;
          if successes >= config.required {
            ResetCounters();
            Transition(Closed);
          }
        } else {
          OpenUp(now);
        }
      } else if mode == Closed {
        if success {
          consecutive := 0;
        } else {
          consecutive := consecutive + 1;
        }
        RecordOutcome(!success, now);
        if !success {
          var tripped := HasTripped(now);
          if tripped {
            OpenUp(now);
          }
        }
      }
    }

    method Settle(ticket: Ticket, success: bool, now: nat)
      requires Usable(config)
      modifies this
      ensures State() == Settled(config, old(State()), ticket, success, now)
    {
      if generation != ticket.generation {
        return;
      }
      Apply(success, now, ticket.probe);
    }

    /** An outcome reported without a permit: it frees a slot only if one was taken without a permit. */
    method RecordManual(success: bool, now: nat)
      requires Usable(config)
      modifies this
      ensures State() == Reported(config, old(State()), success, now)
    {
      var probe := mode == HalfOpen && traitProbes > 0;
      if probe {
        traitProbes := traitProbes - 1;
      }
      Apply(success, now, probe);
    }

    method ReleaseTraitProbe()
      modifies this
      ensures State() == TraitReleased(old(State()))
    {
      if mode == HalfOpen && traitProbes > 0 {
        traitProbes := traitProbes - 1;
        inFlight := Monus(inFlight, 1);
      }
    }

    method Reset()
      modifies this
      ensures State() == Moved(CountersReset(old(State())), Closed)
    {
      ResetCounters();
      Transition(Closed);
    }
  }
}

/** Whole runs of the breaker: slot accounting, stale permits, and what the pruned failure histories
    remember. Requests come with a permit, which knows its admission, or through the limiter trait, whose
    outcomes and refunds are reported without one. */
module BreakerRuns {
  import opened Common
  import opened Breaker

  /** An admitted request is outstanding until its permit is settled, dropped or cancelled, or until what is
      reported without a permit really ends it. */
  datatype Permit = Permit(ticket: Ticket, outstanding: bool)

  datatype Call = Call(at: nat, failure: bool)

  /** `permits` and `asks` are the requests admitted with a permit and through the trait. `calls` is the full
      history of outcomes counted since the breaker last closed, `tripped` the instant of the outcome that last
      opened it, and `wins` the successes counted in the half-open period. */
  datatype Run = Run(shared: Shared, permits: seq<Permit>, asks: seq<Permit>, calls: seq<Call>, clock: nat,
                     tripped: nat, wins: nat)

  /** Where a report has an `ask`, that is the request it really ends; the breaker is not told. */
  datatype Event =
    | Admit(now: nat)
    | Settle(permit: nat, success: bool, now: nat)   // also a permit dropped unsettled, as a failure
    | Cancel(permit: nat)                            // also a refused or cancelled wait, by its guard
    | AdmitTrait(now: nat)
    | Withdraw(which: nat)                           // the wrapped limiter refused what the breaker admitted
    | Report(ask: Option<nat>, success: bool, now: nat)
    | GiveBack(ask: Option<nat>)                     // units are refunded through the trait
    | Reset

  predicate Proper(r: Run, e: Event) {
    match e
    case Admit(now) => now >= r.clock
    case Settle(i, _, now) => now >= r.clock && i < |r.permits| && r.permits[i].outstanding
    case Cancel(i) => i < |r.permits| && r.permits[i].outstanding
    case AdmitTrait(now) => now >= r.clock
    case Withdraw(q) => q < |r.asks| && r.asks[q].outstanding
    case Report(q, _, now) => now >= r.clock && (q.Some? ==> q.value < |r.asks|)
    case GiveBack(q) => q.Some? ==> q.value < |r.asks|
    case Reset => true
  }

  function Return(permits: seq<Permit>, i: nat): seq<Permit>
    requires i < |permits|
  {
    permits[i := permits[i].(outstanding := false)]
  }

  function Ended(asks: seq<Permit>, ask: Option<nat>): seq<Permit>
    requires ask.Some? ==> ask.value < |asks|
  {
    if ask.Some? then Return(asks, ask.value) else asks
  }

  /** The breaker counts this outcome in its failure history. */
  predicate Counts(s: Shared, t: Ticket) {
    s.generation == t.generation && s.mode == Closed
  }

  /** The history after an outcome that led from mode to mode. */
  function History(before: Shared, after: Shared, calls: seq<Call>): seq<Call> {
    if after.mode == Closed && before.mode != Closed then [] else calls
  }

  /** The run once an outcome, counted or not, led to `after`. */
  function Judged(r: Run, after: Shared, success: bool, counted: bool, now: nat): Run {
    r.(shared := after, clock := now,
       tripped := if r.shared.mode != Open && after.mode == Open then now else r.tripped,
       wins := if r.shared.mode != HalfOpen || after.mode != HalfOpen then 0
               else r.wins + if counted && success then 1 else 0)
  }

  function Apply(cfg: Config, r: Run, e: Event): Run
    requires Proper(r, e)
  {
    match e
    case Admit(now) => (
      var (a, s) := Admitting(cfg, r.shared, now);
      match a
      case Admitted(ticket) => r.(shared := s, permits := r.permits + [Permit(ticket, true)], clock := now)
      case Shed(_) => r.(shared := s, clock := now))
    case Settle(i, success, now) =>
      var s := Settled(cfg, r.shared, r.permits[i].ticket, success, now);
      var calls := if Counts(r.shared, r.permits[i].ticket) then r.calls + [Call(now, !success)] else r.calls;
      var counted := r.shared.generation == r.permits[i].ticket.generation;
      Judged(r, s, success, counted, now).(permits := Return(r.permits, i), calls := History(r.shared, s, calls))
    case Cancel(i) => r.(shared := Aborted(r.shared, r.permits[i].ticket, false), permits := Return(r.permits, i))
    case AdmitTrait(now) => (
      var (a, s) := AdmittingTrait(cfg, r.shared, now);
      match a
      case Admitted(ticket) => r.(shared := s, asks := r.asks + [Permit(ticket, true)], clock := now)
      case Shed(_) => r.(shared := s, clock := now))
    case Withdraw(q) => r.(shared := Aborted(r.shared, r.asks[q].ticket, true), asks := Return(r.asks, q))
    case Report(q, success, now) =>
      var s := Reported(cfg, r.shared, success, now);
      var calls := if r.shared.mode == Closed then r.calls + [Call(now, !success)] else r.calls;
      Judged(r, s, success, true, now).(asks := Ended(r.asks, q), calls := History(r.shared, s, calls))
    case GiveBack(q) => r.(shared := TraitReleased(r.shared), asks := Ended(r.asks, q))
    case Reset => r.(shared := Moved(CountersReset(r.shared), Closed), calls := [], wins := 0)
  }

  ghost predicate Reaches(cfg: Config, r: Run, events: seq<Event>, s: Run)
    decreases |events|
  {
    if events == [] then r == s
    else Proper(r, events[0]) && Reaches(cfg, Apply(cfg, r, events[0]), events[1..], s)
  }

  function Fresh(): Run {
    Run(INITIAL, [], [], [], 0, 0, 0)
  }

  // --- Slots ---------------------------------------------------------------------------------------------

  /** Whether a request is an outstanding trial of this generation. */
  function TrialOf(generation: nat): Permit -> int {
    (p: Permit) => if p.outstanding && p.ticket == Ticket(generation, true) then 1 else 0
  }

  /** Trials running with a permit, and through the trait. */
  function Trials(r: Run): int {
    Sum(r.permits, TrialOf(r.shared.generation))
  }

  function TraitTrials(r: Run): int {
    Sum(r.asks, TrialOf(r.shared.generation))
  }

  predicate IsTrial(r: Run, ask: Option<nat>) {
    ask.Some? && ask.value < |r.asks| && TrialOf(r.shared.generation)(r.asks[ask.value]) == 1
  }

  /** A report that would free a trait trial's slot does end such a trial. */
  predicate Matched(r: Run, e: Event) {
    (e.Report? || e.GiveBack?) && r.shared.mode == HalfOpen && r.shared.traitProbes > 0 ==> IsTrial(r, e.ask)
  }

  ghost predicate AllMatched(cfg: Config, r: Run, events: seq<Event>)
    decreases |events|
  {
    events != [] ==> Proper(r, events[0]) && Matched(r, events[0]) && AllMatched(cfg, Apply(cfg, r, events[0]), events[1..])
  }

  /** No request is from a later generation. */
  predicate Known(r: Run) {
    && (forall i | 0 <= i < |r.permits| :: r.permits[i].ticket.generation <= r.shared.generation)
    && (forall q | 0 <= q < |r.asks| :: r.asks[q].ticket.generation <= r.shared.generation)
  }

  predicate SlotsExact(cfg: Config, r: Run) {
    && Trials(r) >= 0 && TraitTrials(r) >= 0
    && if r.shared.mode == HalfOpen then
         && r.shared.inFlight == Trials(r) + TraitTrials(r) <= cfg.trials
         && r.shared.traitProbes == TraitTrials(r)
       else Trials(r) == 0 && TraitTrials(r) == 0 && r.shared.traitProbes == 0
  }

  /** A new generation starts without trials. */
  lemma NewGenerationEmpty(permits: seq<Permit>, generation: nat)
    requires forall i | 0 <= i < |permits| :: permits[i].ticket.generation < generation
    ensures Sum(permits, TrialOf(generation)) == 0
  {
    SumZero(permits, TrialOf(generation));
  }

  lemma ReturnCounts(permits: seq<Permit>, i: nat, generation: nat)
    requires i < |permits|
    ensures Sum(Return(permits, i), TrialOf(generation)) == Sum(permits, TrialOf(generation)) - TrialOf(generation)(permits[i])
    ensures 0 <= TrialOf(generation)(permits[i]) <= Sum(permits, TrialOf(generation))
  {
    SumUpdate(permits, i, permits[i].(outstanding := false), TrialOf(generation));
    SumBounds(permits, TrialOf(generation), i);
  }

  lemma KnownStep(cfg: Config, r: Run, e: Event)
    requires Known(r) && Proper(r, e)
    ensures Known(Apply(cfg, r, e)) && Apply(cfg, r, e).shared.generation >= r.shared.generation
  {
  }

  lemma AdmitKeepsSlots(cfg: Config, r: Run, e: Event)
    requires Usable(cfg) && Known(r) && SlotsExact(cfg, r) && Proper(r, e) && (e.Admit? || e.AdmitTrait?)
    ensures SlotsExact(cfg, Apply(cfg, r, e))
  {
    hide Sum;
    var t := Apply(cfg, r, e);
    var g := t.shared.generation;
    if g != r.shared.generation {
      NewGenerationEmpty(r.permits, g);
      NewGenerationEmpty(r.asks, g);
    }
    if |t.permits| > |r.permits| { SumSnoc(r.permits, t.permits[|r.permits|], TrialOf(g)); }
    if |t.asks| > |r.asks| { SumSnoc(r.asks, t.asks[|r.asks|], TrialOf(g)); }
  }

  lemma ReturnKeepsSlots(cfg: Config, r: Run, e: Event)
    requires Usable(cfg) && Known(r) && SlotsExact(cfg, r) && Proper(r, e) && (e.Settle? || e.Cancel?)
    ensures SlotsExact(cfg, Apply(cfg, r, e))
  {
    hide Sum;
    var t := Apply(cfg, r, e);
    var g := t.shared.generation;
    ReturnCounts(r.permits, e.permit, r.shared.generation);
    if g != r.shared.generation {
      NewGenerationEmpty(t.permits, g);
      NewGenerationEmpty(t.asks, g);
    }
  }

  lemma WithdrawKeepsSlots(cfg: Config, r: Run, q: nat)
    requires Usable(cfg) && SlotsExact(cfg, r) && Proper(r, Withdraw(q))
    ensures SlotsExact(cfg, Apply(cfg, r, Withdraw(q)))
  {
    hide Sum;
    ReturnCounts(r.asks, q, r.shared.generation);
  }

  /** What a report without a permit does to the slots: nothing is miscounted if it ends a trial of this
      generation, or finds none to free, or ends the half-open period. */
  lemma ReportSlots(cfg: Config, r: Run, e: Event)
    requires Usable(cfg) && Known(r) && SlotsExact(cfg, r) && Proper(r, e) && (e.Report? || e.GiveBack?)
    ensures SlotsExact(cfg, Apply(cfg, r, e)) <==> Matched(r, e) || Apply(cfg, r, e).shared.mode != HalfOpen
  {
    hide Sum;
    var t := Apply(cfg, r, e);
    var g := t.shared.generation;
    if e.ask.Some? { ReturnCounts(r.asks, e.ask.value, r.shared.generation); }
    if g != r.shared.generation {
      NewGenerationEmpty(t.permits, g);
      NewGenerationEmpty(t.asks, g);
    }
  }

  lemma StepKeepsSlots(cfg: Config, r: Run, e: Event)
    requires Usable(cfg) && Known(r) && SlotsExact(cfg, r) && Proper(r, e) && Matched(r, e)
    ensures SlotsExact(cfg, Apply(cfg, r, e))
  {
    match e
    case Admit(_) => AdmitKeepsSlots(cfg, r, e);
    case AdmitTrait(_) => AdmitKeepsSlots(cfg, r, e);
    case Settle(_, _, _) => ReturnKeepsSlots(cfg, r, e);
    case Cancel(_) => ReturnKeepsSlots(cfg, r, e);
    case Withdraw(q) => WithdrawKeepsSlots(cfg, r, q);
    case Reset =>
      NewGenerationEmpty(r.permits, r.shared.generation + 1);
      NewGenerationEmpty(r.asks, r.shared.generation + 1);
    case _ => ReportSlots(cfg, r, e);
  }

  // --- Histories -------------------------------------------------------------------------------------------

  function Flags(calls: seq<Call>): seq<bool> {
    seq(|calls|, i requires 0 <= i < |calls| => calls[i].failure)
  }

  /** The times of the failures not before `cutoff`, in order. */
  function FailuresFrom(calls: seq<Call>, cutoff: nat): seq<nat> {
    if calls == [] then []
    else
      var last := calls[|calls| - 1];
      FailuresFrom(calls[..|calls| - 1], cutoff) + if last.failure && last.at >= cutoff then [last.at] else []
  }

  /** The length of the run of failures the history ends with. */
  function TrailingFailures(calls: seq<Call>): nat {
    if calls == [] || !calls[|calls| - 1].failure then 0 else TrailingFailures(calls[..|calls| - 1]) + 1
  }

  /** The trip condition as documented, on the full history. */
  predicate ShouldTrip(trip: Trip, calls: seq<Call>, now: nat) {
    match trip
    case Consecutive(n) => TrailingFailures(calls) >= n
    case Ratio(window, num, den, minCalls) =>
      var recent := LastN(Flags(calls), window);
      |recent| > 0 && |recent| >= minCalls && Failures(recent) * den >= num * |recent|
    case Windowed(failures, period) => |FailuresFrom(calls, Cutoff(now, period))| >= failures
  }

  predicate TimesInOrder(calls: seq<Call>, clock: nat) {
    && (forall i | 0 <= i < |calls| :: calls[i].at <= clock)
    && (forall i, j | 0 <= i < j < |calls| :: calls[i].at <= calls[j].at)
  }

  /** While closed, the pruned history is what the trip condition can still see of the full one. */
  predicate Remembers(cfg: Config, r: Run) {
    && TimesInOrder(r.calls, r.clock)
    && (r.shared.mode == Closed ==>
          && r.shared.consecutive == TrailingFailures(r.calls)
          && match cfg.trip
             case Consecutive(_) => true
             case Ratio(window, _, _, _) => r.shared.outcomes == LastN(Flags(r.calls), window)
             case Windowed(failures, period) =>
               && r.shared.failureTimes == FailuresFrom(r.calls, if r.calls == [] then 0 else Cutoff(r.calls[|r.calls| - 1].at, period))
               && |r.shared.failureTimes| < failures)
  }

  lemma FlagsAppend(calls: seq<Call>, c: Call)
    ensures Flags(calls + [c]) == Flags(calls) + [c.failure]
  {
  }

  /** Keeping the last `n`, appending and keeping the last `n` again is keeping the last `n` of all. */
  lemma LastNAppend(flags: seq<bool>, n: nat, x: bool)
    requires n >= 1
    ensures LastN(LastN(flags, n) + [x], n) == LastN(flags + [x], n)
  {
  }

  /** Failure times from a later cutoff are the earlier ones with the front dropped. */
  lemma {:induction false} FailuresFromLater(calls: seq<Call>, early: nat, late: nat)
    requires early <= late && forall i, j | 0 <= i < j < |calls| :: calls[i].at <= calls[j].at
    ensures DropBefore(FailuresFrom(calls, early), late) == FailuresFrom(calls, late)
  {
    if calls != [] {
      hide DropBefore;
      var n := |calls| - 1;
      FailuresFromLater(calls[..n], early, late);
      if calls[n].failure && calls[n].at >= early {
        if calls[n].at >= late {
          DropAppendLive(FailuresFrom(calls[..n], early), calls[n].at, late);
        } else {
          NoFailuresFrom(calls[..n], late);
          DropAll(FailuresFrom(calls[..n], early), late, calls[n].at);
          assert FailuresFrom(calls, late) == [];
        }
      } else {
        assert FailuresFrom(calls, early) == FailuresFrom(calls[..n], early);
        assert FailuresFrom(calls, late) == FailuresFrom(calls[..n], late);
      }
    }
  }

  lemma {:induction false} DropAppendLive(times: seq<nat>, t: nat, late: nat)
    requires t >= late
    ensures DropBefore(times + [t], late) == DropBefore(times, late) + [t]
  {
    if times != [] && times[0] < late {
      assert (times + [t])[1..] == times[1..] + [t];
      DropAppendLive(times[1..], t, late);
    }
  }

  lemma {:induction false} DropAll(times: seq<nat>, late: nat, t: nat)
    requires DropBefore(times, late) == [] && t < late
    ensures DropBefore(times + [t], late) == []
  {
    if times == [] {
      assert (times + [t])[1..] == [];
    } else {
      assert (times + [t])[1..] == times[1..] + [t];
      DropAll(times[1..], late, t);
    }
  }

  lemma {:induction false} NoFailuresFrom(calls: seq<Call>, late: nat)
    requires forall i | 0 <= i < |calls| :: calls[i].at < late
    ensures FailuresFrom(calls, late) == []
  {
    if calls != [] { NoFailuresFrom(calls[..|calls| - 1], late); }
  }

  lemma {:induction false} AllCounted(calls: seq<Call>, cutoff: nat)
    ensures CountFrom(FailuresFrom(calls, cutoff), cutoff) == |FailuresFrom(calls, cutoff)|
  {
    if calls != [] {
      var n := |calls| - 1;
      AllCounted(calls[..n], cutoff);
      if calls[n].failure && calls[n].at >= cutoff {
        assert FailuresFrom(calls, cutoff)[..|FailuresFrom(calls, cutoff)| - 1] == FailuresFrom(calls[..n], cutoff);
      } else {
        assert FailuresFrom(calls, cutoff) == FailuresFrom(calls[..n], cutoff);
      }
    }
  }

  /** Counting an outcome: the counters stay what the full history makes them, and they trip exactly when
      the full history does. */
  lemma RecordedRemembers(cfg: Config, r: Run, success: bool, now: nat)
    requires Usable(cfg) && Remembers(cfg, r) && r.shared.mode == Closed && now >= r.clock
    ensures var s := r.shared.(consecutive := if success then 0 else r.shared.consecutive + 1);
            var t := Recorded(cfg.trip, s, !success, now);
            var calls := r.calls + [Call(now, !success)];
            && TimesInOrder(calls, now)
            && t.consecutive == TrailingFailures(calls)
            && (Tripped(cfg.trip, t, now) <==> ShouldTrip(cfg.trip, calls, now))
            && (cfg.trip.Ratio? ==> t.outcomes == LastN(Flags(calls), cfg.trip.window))
            && (cfg.trip.Windowed? ==>
                  && t.failureTimes == FailuresFrom(calls, Cutoff(now, cfg.trip.period))
                  && (success ==> |t.failureTimes| < cfg.trip.failures))
  {
    hide DropBefore, FailuresFrom, CountFrom, LastN, Flags, Failures, TimesInOrder;
    var c := Call(now, !success);
    var calls := r.calls + [c];
    assert calls[..|r.calls|] == r.calls;
    OrderKept(r.calls, r.clock, c);
    match cfg.trip
    case Consecutive(_) =>
    case Ratio(window, _, _, _) =>
      FlagsAppend(r.calls, c);
      LastNAppend(Flags(r.calls), window, !success);
    case Windowed(_, period) => TimesRemember(r.calls, r.clock, r.shared.failureTimes, success, now, period);
  }

  lemma OrderKept(calls: seq<Call>, clock: nat, c: Call)
    requires TimesInOrder(calls, clock) && c.at >= clock
    ensures TimesInOrder(calls + [c], c.at)
  {
  }

  lemma TimesRemember(before: seq<Call>, clock: nat, times: seq<nat>, success: bool, now: nat, period: nat)
    requires TimesInOrder(before, clock) && clock <= now
    requires times == FailuresFrom(before, if before == [] then 0 else Cutoff(before[|before| - 1].at, period))
    ensures var late := Cutoff(now, period);
            var kept := DropBefore(times + if !success then [now] else [], late);
            && kept == FailuresFrom(before + [Call(now, !success)], late)
            && CountFrom(kept, late) == |kept|
            && (success ==> |kept| <= |times|)
  {
    var calls := before + [Call(now, !success)];
    var early := if before == [] then 0 else Cutoff(before[|before| - 1].at, period);
    var late := Cutoff(now, period);
    assert calls[..|before|] == before;
    if before != [] { FailuresFromLater(before, early, late); }
    AllCounted(calls, late);
    if success {
      assert times + [] == times;
      assert FailuresFrom(calls, late) == FailuresFrom(before, late);
      DropShortens(times, late);
    } else {
      DropAppendLive(times, now, late);
    }
  }

  lemma {:induction false} DropShortens(times: seq<nat>, cutoff: nat)
    ensures |DropBefore(times, cutoff)| <= |times|
  {
    if times != [] && times[0] < cutoff { DropShortens(times[1..], cutoff); }
  }

  lemma StepRemembers(cfg: Config, r: Run, e: Event)
    requires Usable(cfg) && Remembers(cfg, r) && Proper(r, e)
    ensures Remembers(cfg, Apply(cfg, r, e))
  {
    match e
    case Settle(i, success, now) => SettleRemembers(cfg, r, i, success, now);
    case Report(ask, success, now) => ReportRemembers(cfg, r, ask, success, now);
    case _ => UncountedRemembers(cfg, r, e);
  }

  lemma UncountedRemembers(cfg: Config, r: Run, e: Event)
    requires Usable(cfg) && Remembers(cfg, r) && Proper(r, e) && !e.Settle? && !e.Report?
    ensures Remembers(cfg, Apply(cfg, r, e))
  {
    hide DropBefore, CountFrom, Failures;
    assert TrailingFailures([]) == 0 && FailuresFrom([], 0) == [] && Flags([]) == [];
    hide FailuresFrom, Flags, TrailingFailures;
  }

  lemma SettleRemembers(cfg: Config, r: Run, i: nat, success: bool, now: nat)
    requires Usable(cfg) && Remembers(cfg, r) && Proper(r, Settle(i, success, now))
    ensures Remembers(cfg, Apply(cfg, r, Settle(i, success, now)))
  {
    var t := Apply(cfg, r, Settle(i, success, now));
    if Counts(r.shared, r.permits[i].ticket) {
      CountedRemembers(cfg, r, success, now, t);
    } else {
      assert t.shared.mode == Closed ==> r.shared.mode == Closed || t.calls == [];
    }
  }

  lemma ReportRemembers(cfg: Config, r: Run, ask: Option<nat>, success: bool, now: nat)
    requires Usable(cfg) && Remembers(cfg, r) && Proper(r, Report(ask, success, now))
    ensures Remembers(cfg, Apply(cfg, r, Report(ask, success, now)))
  {
    var t := Apply(cfg, r, Report(ask, success, now));
    if r.shared.mode == Closed {
      CountedRemembers(cfg, r, success, now, t);
    } else {
      assert t.shared.mode == Closed ==> t.calls == [];
    }
  }

  lemma CountedRemembers(cfg: Config, r: Run, success: bool, now: nat, t: Run)
    requires Usable(cfg) && Remembers(cfg, r) && r.shared.mode == Closed && now >= r.clock
    requires t.shared == ClosedOutcome(cfg, r.shared, success, now)
    requires t.calls == r.calls + [Call(now, !success)] && t.clock == now
    ensures Remembers(cfg, t)
  {
    RecordedRemembers(cfg, r, success, now);
    assert t.calls[|t.calls| - 1].at == now;
    if t.shared.mode == Closed && cfg.trip.Windowed? && !success {
      AllCounted(t.calls, Cutoff(now, cfg.trip.period));
    }
  }

  // --- Cooling down and trying out ----------------------------------------------------------------------------

  /** When an open breaker lets requests in again. */
  function CooledAt(cfg: Config, r: Run): nat {
    SatAdd(r.tripped, cfg.cooldown)
  }

  predicate Timed(cfg: Config, r: Run) {
    && (r.shared.mode == Open ==> r.shared.openUntil == CooledAt(cfg, r))
    && (if r.shared.mode == HalfOpen then r.shared.successes == r.wins < cfg.required else r.wins == 0)
  }

  lemma StepTimed(cfg: Config, r: Run, e: Event)
    requires Usable(cfg) && Timed(cfg, r) && Proper(r, e)
    ensures Timed(cfg, Apply(cfg, r, e))
  {
    hide Tripped, DropBefore, LastN, SatAdd;
  }

  lemma {:induction false} ReachTimed(cfg: Config, r: Run, events: seq<Event>, s: Run)
    requires Usable(cfg) && Timed(cfg, r) && Reaches(cfg, r, events, s)
    ensures Timed(cfg, s)
    decreases |events|
  {
    hide Timed;
    if events != [] {
      StepTimed(cfg, r, events[0]);
      ReachTimed(cfg, Apply(cfg, r, events[0]), events[1..], s);
    }
  }

  /** Over every run, an open breaker sheds every request, with a permit or through the trait, until exactly the
      cooldown has passed since the outcome that opened it, and says so; it then starts trials with the first
      that comes. */
  lemma ShedUntilCooledDown(cfg: Config, events: seq<Event>, r: Run, now: nat)
    requires Usable(cfg) && Reaches(cfg, Fresh(), events, r) && r.shared.mode == Open && now >= r.clock
    ensures now < CooledAt(cfg, r) ==>
              && Admitting(cfg, r.shared, now).0 == AdmittingTrait(cfg, r.shared, now).0 == Shed(CooledAt(cfg, r) - now)
              && Apply(cfg, r, Admit(now)) == Apply(cfg, r, AdmitTrait(now)) == r.(clock := now)
    ensures now >= CooledAt(cfg, r) ==>
              var t, u := Apply(cfg, r, Admit(now)), Apply(cfg, r, AdmitTrait(now));
              && t.shared.mode == u.shared.mode == HalfOpen && t.shared.generation == u.shared.generation > r.shared.generation
              && t.permits == r.permits + [Permit(Ticket(t.shared.generation, true), true)] && t.asks == r.asks
              && u.asks == r.asks + [Permit(Ticket(u.shared.generation, true), true)] && u.permits == r.permits
  {
    ReachTimed(cfg, Fresh(), events, r);
  }

  /** Over every run of matched reports, requests are shed while the breaker cools down or as many trials run as
      are allowed, and never otherwise. */
  lemma ShedIffCoolingOrFull(cfg: Config, events: seq<Event>, r: Run, now: nat)
    requires Usable(cfg) && Reaches(cfg, Fresh(), events, r) && AllMatched(cfg, Fresh(), events) && now >= r.clock
    ensures Admitting(cfg, r.shared, now).0.Shed?
       <==> (r.shared.mode == Open && now < CooledAt(cfg, r))
            || (r.shared.mode == HalfOpen && Trials(r) + TraitTrials(r) == cfg.trials)
    ensures AdmittingTrait(cfg, r.shared, now).0 == Admitting(cfg, r.shared, now).0
    ensures r.shared.mode == HalfOpen && Trials(r) + TraitTrials(r) == cfg.trials ==> Admitting(cfg, r.shared, now).0 == Shed(0)
  {
    ReachTimed(cfg, Fresh(), events, r);
    MatchedRun(cfg, events, r);
  }

  /** The outcome is counted in the current period. */
  predicate CountedNow(r: Run, e: Event)
    requires Proper(r, e)
  {
    e.Report? || (e.Settle? && r.permits[e.permit].ticket.generation == r.shared.generation)
  }

  /** Over every run, a failure in a half-open period opens the breaker again as of now, and a success closes it if
      and only if it is the last of those required. */
  lemma TrialsDecide(cfg: Config, events: seq<Event>, r: Run, e: Event)
    requires Usable(cfg) && Reaches(cfg, Fresh(), events, r) && r.shared.mode == HalfOpen
    requires Proper(r, e) && CountedNow(r, e)
    ensures var t := Apply(cfg, r, e);
            if !e.success then t.shared.mode == Open && t.tripped == e.now
            else if r.wins + 1 < cfg.required then
              t.shared.mode == HalfOpen && t.shared.generation == r.shared.generation && t.wins == r.wins + 1
            else t.shared.mode == Closed && t.calls == []
    ensures r.wins < cfg.required
  {
    ReachTimed(cfg, Fresh(), events, r);
  }

  /** A reset breaker admits everybody, not as a trial, and every permit from before is stale. */
  lemma ResetCloses(cfg: Config, events: seq<Event>, r: Run, now: nat)
    requires Usable(cfg) && Reaches(cfg, Fresh(), events, r)
    ensures var t := Apply(cfg, r, Reset);
            && Admitting(cfg, t.shared, now).0 == Admitted(Ticket(t.shared.generation, false))
            && forall p <- t.permits + t.asks :: p.ticket.generation < t.shared.generation
  {
    ReachKeeps(cfg, Fresh(), events, r);
  }

  // --- Main results -------------------------------------------------------------------------------------------

  lemma {:induction false} ReachKeeps(cfg: Config, r: Run, events: seq<Event>, s: Run)
    requires Usable(cfg) && Known(r) && Remembers(cfg, r) && Reaches(cfg, r, events, s)
    ensures Known(s) && Remembers(cfg, s)
    decreases |events|
  {
    if events != [] {
      KnownStep(cfg, r, events[0]);
      StepRemembers(cfg, r, events[0]);
      ReachKeeps(cfg, Apply(cfg, r, events[0]), events[1..], s);
    }
  }

  lemma {:induction false} MatchedKeeps(cfg: Config, r: Run, events: seq<Event>, s: Run)
    requires Usable(cfg) && Known(r) && SlotsExact(cfg, r) && Reaches(cfg, r, events, s) && AllMatched(cfg, r, events)
    ensures SlotsExact(cfg, s)
    decreases |events|
  {
    if events != [] {
      KnownStep(cfg, r, events[0]);
      StepKeepsSlots(cfg, r, events[0]);
      MatchedKeeps(cfg, Apply(cfg, r, events[0]), events[1..], s);
    }
  }

  lemma MatchedRun(cfg: Config, events: seq<Event>, r: Run)
    requires Usable(cfg) && Reaches(cfg, Fresh(), events, r) && AllMatched(cfg, Fresh(), events)
    ensures Known(r) && SlotsExact(cfg, r)
  {
    assert SlotsExact(cfg, Fresh()) && Remembers(cfg, Fresh());
    ReachKeeps(cfg, Fresh(), events, r);
    MatchedKeeps(cfg, Fresh(), events, r);
  }

  /** As long as whatever is reported without a permit is matched, and so in every run with permits only, the
      slots in use are exactly the outstanding trials of the current generation, those of the trait are
      counted exactly too, and there are never more than configured; and a half-open breaker with no
      outstanding trial admits, so it cannot get stuck there. */
  lemma SlotsAreOutstandingTrials(cfg: Config, events: seq<Event>, r: Run, now: nat)
    requires Usable(cfg) && Reaches(cfg, Fresh(), events, r) && AllMatched(cfg, Fresh(), events) && r.shared.mode == HalfOpen
    ensures r.shared.inFlight == Trials(r) + TraitTrials(r) <= cfg.trials
    ensures r.shared.traitProbes == TraitTrials(r) <= r.shared.inFlight
    ensures Trials(r) + TraitTrials(r) == 0 ==> Admitting(cfg, r.shared, now).0 == Admitted(Ticket(r.shared.generation, true))
    ensures Admitting(cfg, r.shared, now).0.Shed? <==> Trials(r) + TraitTrials(r) == cfg.trials
  {
    MatchedRun(cfg, events, r);
  }

  /** The first report that can go wrong: it leaves the count exact if and only if it ends a trial of the
      current half-open period, or there is no such trial to confuse it with, or it ends the period. */
  lemma ReportIsExactIffMatched(cfg: Config, events: seq<Event>, r: Run, e: Event)
    requires Usable(cfg) && Reaches(cfg, Fresh(), events, r) && AllMatched(cfg, Fresh(), events)
    requires Proper(r, e) && (e.Report? || e.GiveBack?)
    ensures SlotsExact(cfg, Apply(cfg, r, e)) <==> Matched(r, e) || Apply(cfg, r, e).shared.mode != HalfOpen
  {
    MatchedRun(cfg, events, r);
    ReportSlots(cfg, r, e);
  }

  /** Exactly when a refund lets one trial too many run: in a full half-open period, the next request is
      admitted after it if the refund frees a slot at all, and then too many run if and only if the refund is
      of no trial of this period. */
  lemma ExtraTrialIffUnmatched(cfg: Config, events: seq<Event>, r: Run, ask: Option<nat>, now: nat)
    requires Usable(cfg) && Reaches(cfg, Fresh(), events, r) && AllMatched(cfg, Fresh(), events)
    requires r.shared.mode == HalfOpen && r.shared.inFlight == cfg.trials && r.shared.traitProbes > 0
    requires Proper(r, GiveBack(ask)) && now >= r.clock
    ensures var t := Apply(cfg, Apply(cfg, r, GiveBack(ask)), Admit(now));
            && |t.permits| == |r.permits| + 1
            && (Trials(t) + TraitTrials(t) == cfg.trials + 1 <==> !IsTrial(r, ask))
            && (Trials(t) + TraitTrials(t) == cfg.trials <==> IsTrial(r, ask))
  {
    hide Sum;
    MatchedRun(cfg, events, r);
    var s := Apply(cfg, r, GiveBack(ask));
    var t := Apply(cfg, s, Admit(now));
    if ask.Some? { ReturnCounts(r.asks, ask.value, r.shared.generation); }
    SumSnoc(r.permits, t.permits[|r.permits|], TrialOf(r.shared.generation));
  }

  /** Permits are then no longer exact either: when the trial whose slot was freed by mistake is withdrawn, the
      slot of a permit is freed as well. */
  lemma PermitMiscounted(cfg: Config, events: seq<Event>, r: Run, q: nat)
    requires Usable(cfg) && Reaches(cfg, Fresh(), events, r) && AllMatched(cfg, Fresh(), events)
    requires r.shared.mode == HalfOpen && r.shared.traitProbes == 1 && IsTrial(r, Some(q)) && Trials(r) >= 1
    ensures Proper(r, GiveBack(None)) && Proper(Apply(cfg, r, GiveBack(None)), Withdraw(q))
    ensures var t := Apply(cfg, Apply(cfg, r, GiveBack(None)), Withdraw(q));
            TraitTrials(t) == 0 && t.shared.inFlight == Trials(t) - 1
  {
    hide Sum;
    MatchedRun(cfg, events, r);
    ReturnCounts(r.asks, q, r.shared.generation);
  }

  // --- Such runs exist ------------------------------------------------------------------------------------------

  /** One failure opens the breaker, for five milliseconds; then two trials may run. */
  function TwoTrials(): Config {
    Config(Consecutive(1), 5, 2, 1)
  }

  /** A request fails, and after the cooldown one trial starts with a permit and one through the trait. */
  function FullOfTrials(): seq<Event> {
    [Admit(0)] + ([Settle(0, false, 0)] + ([Admit(5)] + ([AdmitTrait(5)] + [])))
  }

  function OneAdmitted(): Run {
    Run(INITIAL, [Permit(Ticket(0, false), true)], [], [], 0, 0, 0)
  }

  function OneFailed(): Run {
    Run(Shared(Open, 1, 1, [], [], 0, 0, 0, 5), [Permit(Ticket(0, false), false)], [], [Call(0, true)], 0, 0, 0)
  }

  function OneTrial(): Run {
    Run(Shared(HalfOpen, 2, 1, [], [], 1, 0, 0, 5), [Permit(Ticket(0, false), false), Permit(Ticket(2, true), true)], [],
        [Call(0, true)], 5, 0, 0)
  }

  function BothTrials(): Run {
    Run(Shared(HalfOpen, 2, 1, [], [], 2, 1, 0, 5), [Permit(Ticket(0, false), false), Permit(Ticket(2, true), true)],
        [Permit(Ticket(2, true), true)], [Call(0, true)], 5, 0, 0)
  }

  lemma TrialsStart()
    ensures Proper(Fresh(), Admit(0)) && Apply(TwoTrials(), Fresh(), Admit(0)) == OneAdmitted()
    ensures Proper(OneAdmitted(), Settle(0, false, 0)) && Apply(TwoTrials(), OneAdmitted(), Settle(0, false, 0)) == OneFailed()
    ensures Proper(OneFailed(), Admit(5)) && Apply(TwoTrials(), OneFailed(), Admit(5)) == OneTrial()
    ensures Proper(OneTrial(), AdmitTrait(5)) && Apply(TwoTrials(), OneTrial(), AdmitTrait(5)) == BothTrials()
  {
  }

  lemma NoEvents(cfg: Config, r: Run)
    ensures Reaches(cfg, r, [], r) && AllMatched(cfg, r, [])
  {
  }

  lemma Prepend(cfg: Config, r: Run, e: Event, rest: seq<Event>, s: Run)
    requires Proper(r, e) && !e.Report? && !e.GiveBack? && Reaches(cfg, Apply(cfg, r, e), rest, s)
    requires AllMatched(cfg, Apply(cfg, r, e), rest)
    ensures Reaches(cfg, r, [e] + rest, s) && AllMatched(cfg, r, [e] + rest)
  {
    hide Proper, Apply;
    assert ([e] + rest)[1..] == rest;
  }

  lemma TrialsReached()
    ensures Reaches(TwoTrials(), Fresh(), FullOfTrials(), BothTrials()) && AllMatched(TwoTrials(), Fresh(), FullOfTrials())
  {
    hide Reaches, AllMatched, Proper, Apply, TwoTrials, Fresh, OneAdmitted, OneFailed, OneTrial, BothTrials;
    TrialsStart();
    NoEvents(TwoTrials(), BothTrials());
    Prepend(TwoTrials(), OneTrial(), AdmitTrait(5), [], BothTrials());
    Prepend(TwoTrials(), OneFailed(), Admit(5), [AdmitTrait(5)] + [], BothTrials());
    Prepend(TwoTrials(), OneAdmitted(), Settle(0, false, 0), [Admit(5)] + ([AdmitTrait(5)] + []), BothTrials());
    Prepend(TwoTrials(), Fresh(), Admit(0), [Settle(0, false, 0)] + ([Admit(5)] + ([AdmitTrait(5)] + [])), BothTrials());
  }

  lemma BothRunning()
    ensures Trials(BothTrials()) == 1 && TraitTrials(BothTrials()) == 1 && IsTrial(BothTrials(), Some(0))
  {
    var permits, asks, f := BothTrials().permits, BothTrials().asks, TrialOf(2);
    assert permits == [] + [permits[0]] + [permits[1]] && asks == [] + [asks[0]];
    SumSnoc([], permits[0], f);
    SumSnoc([permits[0]], permits[1], f);
    SumSnoc([], asks[0], f);
  }

  /** Both miscounts happen, after a run in which nothing was reported without a permit: a refund of units that
      were no trial's lets a third trial run beside the two allowed; and with the trait's trial withdrawn
      instead, no slot is counted while a permit's trial still runs. */
  lemma MiscountsHappen()
    ensures Usable(TwoTrials())
    ensures Reaches(TwoTrials(), Fresh(), FullOfTrials(), BothTrials()) && AllMatched(TwoTrials(), Fresh(), FullOfTrials())
    ensures var t := Apply(TwoTrials(), Apply(TwoTrials(), BothTrials(), GiveBack(None)), Admit(5));
            Trials(t) + TraitTrials(t) == TwoTrials().trials + 1
    ensures Proper(Apply(TwoTrials(), BothTrials(), GiveBack(None)), Withdraw(0))
    ensures var t := Apply(TwoTrials(), Apply(TwoTrials(), BothTrials(), GiveBack(None)), Withdraw(0));
            t.shared.inFlight == 0 && Trials(t) == 1
  {
    hide Sum, Reaches, AllMatched;
    TrialsReached();
    BothRunning();
    ExtraTrialIffUnmatched(TwoTrials(), FullOfTrials(), BothTrials(), None, 5);
    PermitMiscounted(TwoTrials(), FullOfTrials(), BothTrials(), 0);
    ReturnCounts(BothTrials().asks, 0, 2);
  }

  /** A permit admitted under an earlier generation changes nothing, whatever becomes of it. */
  lemma StalePermitsChangeNothing(cfg: Config, events: seq<Event>, r: Run, i: nat, success: bool, now: nat)
    requires Usable(cfg) && Reaches(cfg, Fresh(), events, r)
    requires i < |r.permits| && r.permits[i].outstanding && now >= r.clock
    requires r.permits[i].ticket.generation != r.shared.generation
    ensures r.permits[i].ticket.generation < r.shared.generation
    ensures Apply(cfg, r, Settle(i, success, now)).shared == r.shared
    ensures Apply(cfg, r, Cancel(i)).shared == r.shared
    ensures Apply(cfg, r, Settle(i, success, now)).calls == r.calls
  {
    ReachKeeps(cfg, Fresh(), events, r);
  }

  lemma OutcomeTrips(cfg: Config, r: Run, success: bool, now: nat)
    requires Usable(cfg) && Remembers(cfg, r) && r.shared.mode == Closed && now >= r.clock
    ensures ClosedOutcome(cfg, r.shared, success, now).mode == Open
       <==> !success && ShouldTrip(cfg.trip, r.calls + [Call(now, true)], now)
  {
    RecordedRemembers(cfg, r, success, now);
    hide DropBefore, FailuresFrom, CountFrom, LastN, Flags, Failures, TrailingFailures, Remembers, ShouldTrip, Tripped, TimesInOrder;
  }

  /** The pruned histories lose nothing the trip condition needs: a closed breaker that counts an outcome
      opens exactly when that outcome is a failure and the full history since it last closed meets the
      documented condition; while closed it keeps the last `window` outcomes, or fewer than `failures`
      timestamps. */
  lemma TripsExactlyWhenHistoryDoes(cfg: Config, events: seq<Event>, r: Run, i: nat, success: bool, now: nat)
    requires Usable(cfg) && Reaches(cfg, Fresh(), events, r) && r.shared.mode == Closed
    requires i < |r.permits| && r.permits[i].outstanding && now >= r.clock
    requires r.permits[i].ticket.generation == r.shared.generation
    ensures Apply(cfg, r, Settle(i, success, now)).shared.mode == Open
       <==> !success && ShouldTrip(cfg.trip, r.calls + [Call(now, true)], now)
    ensures Apply(cfg, r, Settle(i, success, now)).shared.mode == Open ==> Apply(cfg, r, Settle(i, success, now)).tripped == now
    ensures cfg.trip.Ratio? ==> r.shared.outcomes == LastN(Flags(r.calls), cfg.trip.window)
    ensures cfg.trip.Windowed? ==> |r.shared.failureTimes| < cfg.trip.failures
  {
    ReachKeeps(cfg, Fresh(), events, r);
    hide Reaches, ShouldTrip, TimesInOrder;
    OutcomeTrips(cfg, r, success, now);
    hide ClosedOutcome;
  }

  /** The same for an outcome reported without a permit. */
  lemma ReportTripsExactly(cfg: Config, events: seq<Event>, r: Run, ask: Option<nat>, success: bool, now: nat)
    requires Usable(cfg) && Reaches(cfg, Fresh(), events, r) && r.shared.mode == Closed
    requires Proper(r, Report(ask, success, now))
    ensures Apply(cfg, r, Report(ask, success, now)).shared.mode == Open
       <==> !success && ShouldTrip(cfg.trip, r.calls + [Call(now, true)], now)
    ensures Apply(cfg, r, Report(ask, success, now)).shared.mode == Open ==> Apply(cfg, r, Report(ask, success, now)).tripped == now
  {
    ReachKeeps(cfg, Fresh(), events, r);
    hide Reaches, ShouldTrip, TimesInOrder;
    OutcomeTrips(cfg, r, success, now);
    hide ClosedOutcome;
  }
}

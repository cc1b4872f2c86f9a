/** The waiting engine: a loop around a limiter's step that ends in a grant, at the deadline, or with the
    news that the request can never be met, and a guard through which every end but success gives held
    units back.

    Everything outside the engine is the environment: what each step answers, how long the limiter
    says it is paused, whether a resume moved the epoch, how late a timer fires, how long a yield
    takes, and at which await the caller drops the future. The engine is proved against every one. */
module Waiting {
  import opened Common

  const RACE_YIELDS: nat := 4
  const RACE_BACKOFF: nat := 1_000_000
  const SHORT_NAP: nat := 1_000_000

  datatype Answer = Granted(wait: nat) | Holding(wait: nat) | Retry(after: nat) | Never

  datatype Outcome = Done | Refused | TimedOut | Dropped

  /** What the engine did, in order. A sleep was asked to end at `due` and did end at `until`. */
  datatype Event =
    | Asked(at: nat, budget: nat, answer: Answer)
    | Slept(from: nat, due: nat, until: nat)
    | Yielded
    | Resumed
    | Released

  /** What the environment does next is a function of the number of events so far: what a step answers within its
      budget, how long the limiter stays paused, whether a resume moved the epoch and how soon it cuts a sleep
      short, how late timers and yields are, and whether the future is dropped. `resumes` bounds how often a resume
      intervenes. */
  datatype Env = Env(
    step: (nat, nat) -> Answer,
    paused: nat -> nat,
    resumed: nat -> bool,
    early: nat -> nat,
    late: nat -> nat,
    dropped: nat -> bool,
    resumes: nat)

  /** Steps grant only what comes due within the budget they were given. */
  ghost predicate WithinBudget(env: Env) {
    forall n, budget :: env.step(n, budget).Granted? ==> env.step(n, budget).wait <= budget
  }

  /** Timers and yields take no longer than asked. */
  ghost predicate Punctual(env: Env) {
    forall n :: env.late(n) == 0
  }

  // --- What a trace says -------------------------------------------------------------------------------

  function LastAnswer(trace: seq<Event>): Option<Answer> {
    if trace == [] then None
    else if trace[|trace| - 1].Asked? then Some(trace[|trace| - 1].answer)
    else LastAnswer(trace[..|trace| - 1])
  }

  /** The last event was a step's answer. */
  predicate JustAsked(trace: seq<Event>) {
    trace != [] && trace[|trace| - 1].Asked?
  }

  /** The last event was an await, at which the future may be dropped. */
  predicate JustAwaited(trace: seq<Event>) {
    trace != [] && (trace[|trace| - 1].Slept? || trace[|trace| - 1].Yielded?)
  }

  /** The last step left the waiter holding units. */
  predicate HoldsUnits(trace: seq<Event>) {
    var last := LastAnswer(trace);
    last.Some? && (last.value.Granted? || last.value.Holding?)
  }

  /** The wait a step asked for, if it did. */
  function AskedFor(answer: Answer): Option<nat> {
    match answer
    case Holding(wait) => Some(wait)
    case Retry(after) => Some(after)
    case _ => None
  }

  /** How many steps in a row, up to the last, asked for no wait. */
  function Zeros(trace: seq<Event>): nat {
    if trace == [] then 0
    else
      var last, before := trace[|trace| - 1], trace[..|trace| - 1];
      if !last.Asked? then Zeros(before) else if AskedFor(last.answer) == Some(0) then Zeros(before) + 1 else 0
  }

  /** The instant after these events. */
  function Clock(env: Env, start: nat, trace: seq<Event>): nat {
    if trace == [] then start
    else
      var before := Clock(env, start, trace[..|trace| - 1]);
      match trace[|trace| - 1]
      case Asked(_, _, _) => before
      case Slept(_, _, until) => until
      case Yielded => before + env.late(|trace|)
      case _ => before
  }

  predicate Woken(e: Event) {
    e.Resumed? || (e.Slept? && e.until < e.due)
  }

  /** How often a resume may still intervene. */
  function Credit(env: Env, trace: seq<Event>): nat {
    if trace == [] then env.resumes
    else Monus(Credit(env, trace[..|trace| - 1]), if Woken(trace[|trace| - 1]) then 1 else 0)
  }

  // --- What the engine may do --------------------------------------------------------------------------

  /** A resume has moved the epoch. */
  predicate EpochMoved(env: Env, trace: seq<Event>) {
    Credit(env, trace) > 0 && env.resumed(|trace|)
  }

  /** When a sleep of `nap` from `from` ends: late, or before its time if it listens and a resume comes. */
  function WakesAt(env: Env, n: nat, credit: nat, from: nat, nap: nat, listening: bool): nat
    requires nap > 0
  {
    if listening && nap > SHORT_NAP && credit > 0 && env.resumed(n) then from + env.early(n) % nap
    else from + nap + env.late(n)
  }

  /** The sleep after a step that asked for `wait`; without one, a brief nap inside the time left. */
  function NapFor(wait: nat, left: nat): nat {
    if wait > 0 then wait else Min(RACE_BACKOFF, left)
  }

  /** The last step asked for a wait that fits, and it is time to sleep on it. */
  predicate WaitsOn(env: Env, start: nat, deadline: nat, trace: seq<Event>) {
    && JustAsked(trace) && AskedFor(LastAnswer(trace).value).Some?
    && var wait := AskedFor(LastAnswer(trace).value).value;
       var left := Monus(deadline, Clock(env, start, trace));
       wait <= left && (wait == 0 ==> Zeros(trace) > RACE_YIELDS && left > 0)
  }

  /** The units have matured: only a pause can still hold the waiter. */
  predicate Matured(trace: seq<Event>) {
    && LastAnswer(trace).Some? && LastAnswer(trace).value.Granted?
    && (LastAnswer(trace).value.wait > 0 ==> !JustAsked(trace))
  }

  predicate SitsOut(env: Env, start: nat, deadline: nat, trace: seq<Event>) {
    Matured(trace) && 0 < env.paused(|trace|) <= Monus(deadline, Clock(env, start, trace))
  }

  /** `e` is what the engine does after `trace`. */
  predicate Follows(env: Env, start: nat, deadline: nat, trace: seq<Event>, e: Event) {
    var now, n, credit := Clock(env, start, trace), |trace|, Credit(env, trace);
    && (JustAwaited(trace) && !e.Released? ==> !env.dropped(n))
    && match e
       case Asked(at, budget, answer) =>
         && at == now && budget == Monus(deadline, now) && answer == env.step(n, budget)
         && (trace != [] ==> !JustAsked(trace) && LastAnswer(trace).Some? && AskedFor(LastAnswer(trace).value).Some?)
       case Yielded =>
         JustAsked(trace) && AskedFor(LastAnswer(trace).value) == Some(0) && Zeros(trace) <= RACE_YIELDS
       case Resumed =>
         && EpochMoved(env, trace)
         && (WaitsOn(env, start, deadline, trace) || (SitsOut(env, start, deadline, trace) && env.paused(n) > SHORT_NAP))
       case Slept(from, due, until) =>
         && from == now < due
         && if WaitsOn(env, start, deadline, trace) then
              && due == now + NapFor(AskedFor(LastAnswer(trace).value).value, Monus(deadline, now)) && !EpochMoved(env, trace)
              && until == WakesAt(env, n + 1, credit, now, due - now, env.paused(n) > 0)
            else if Matured(trace) then
              && SitsOut(env, start, deadline, trace) && due == now + env.paused(n)
              && (env.paused(n) > SHORT_NAP ==> !EpochMoved(env, trace))
              && until == WakesAt(env, n + 1, credit, now, due - now, true)
            else
              && JustAsked(trace) && LastAnswer(trace) == Some(Granted(due - now))
              && until == WakesAt(env, n + 1, credit, now, due - now, false)
       case Released => HoldsUnits(trace)
  }

  /** Every event follows from those before it and the environment. */
  predicate Played(env: Env, start: nat, deadline: nat, trace: seq<Event>) {
    trace != [] ==>
      var before := trace[..|trace| - 1];
      Played(env, start, deadline, before) && Follows(env, start, deadline, before, trace[|trace| - 1])
  }

  /** Giving up is justified: the wait the last step asked for does not fit, or no time is left after it lost one
      race too many, or the pause found last does not fit. */
  predicate CannotMakeIt(env: Env, start: nat, deadline: nat, trace: seq<Event>) {
    var left := Monus(deadline, Clock(env, start, trace));
    if Matured(trace) then env.paused(|trace|) > left
    else
      && JustAsked(trace)
      && match AskedFor(LastAnswer(trace).value)
         case Some(wait) => wait > left || (wait == 0 && left == 0 && Zeros(trace) > RACE_YIELDS)
         case None => false
  }

  /** Why a wait ends after these events. */
  predicate Ends(env: Env, start: nat, deadline: nat, trace: seq<Event>, outcome: Outcome) {
    if JustAwaited(trace) && env.dropped(|trace|) then outcome == Dropped
    else
      match outcome
      case Done => Matured(trace) && env.paused(|trace|) == 0
      case Refused => JustAsked(trace) && LastAnswer(trace) == Some(Never)
      case TimedOut => CannotMakeIt(env, start, deadline, trace)
      case Dropped => false
  }

  predicate NeverReleased(trace: seq<Event>) {
    forall i | 0 <= i < |trace| :: !trace[i].Released?
  }

  predicate SleepsWithin(trace: seq<Event>, deadline: nat) {
    forall i | 0 <= i < |trace| && trace[i].Slept? :: trace[i].due <= deadline
  }

  /** How a trace ends: success keeps the units; any other end gives back what the last step held,
      once, as the last thing it does, and gives back nothing otherwise. */
  predicate EndsClean(trace: seq<Event>, outcome: Outcome) {
    if outcome == Done then HoldsUnits(trace) && LastAnswer(trace).value.Granted? && NeverReleased(trace)
    else if HoldsUnits(trace) then
      trace != [] && trace[|trace| - 1] == Released && NeverReleased(trace[..|trace| - 1])
    else NeverReleased(trace)
  }

  /** What happened before the guard gave units back, if it did. */
  function Unreleased(trace: seq<Event>): seq<Event> {
    if trace != [] && trace[|trace| - 1].Released? then trace[..|trace| - 1] else trace
  }

  /** From `before` to `trace` no further step was taken. */
  predicate StepsNoMore(before: seq<Event>, trace: seq<Event>) {
    before <= trace && forall j | |before| <= j < |trace| :: !trace[j].Asked?
  }

  /** Event `i` is the last step, it granted, and the granted wait was waited out: right after it came a sleep of
      that length, and its end has been reached. */
  predicate GrantWaitedOut(trace: seq<Event>, i: nat, now: nat) {
    && i < |trace| && trace[i].Asked? && trace[i].answer.Granted?
    && (forall j | i < j < |trace| :: !trace[j].Asked?)
    && (trace[i].answer.wait > 0 ==>
          && i + 1 < |trace| && trace[i + 1].Slept?
          && trace[i + 1].from == trace[i].at && trace[i + 1].due == trace[i].at + trace[i].answer.wait <= now)
  }

  ghost predicate WaitedOut(trace: seq<Event>, now: nat) {
    exists i: nat :: GrantWaitedOut(trace, i, now)
  }

  lemma Extend(env: Env, start: nat, deadline: nat, trace: seq<Event>, e: Event)
    requires Played(env, start, deadline, trace) && Follows(env, start, deadline, trace, e)
    requires !e.Released? && NeverReleased(trace)
    ensures Played(env, start, deadline, trace + [e]) && NeverReleased(trace + [e])
    ensures LastAnswer(trace + [e]) == if e.Asked? then Some(e.answer) else LastAnswer(trace)
    ensures Zeros(trace + [e]) == if !e.Asked? then Zeros(trace) else if AskedFor(e.answer) == Some(0) then Zeros(trace) + 1 else 0
    ensures Credit(env, trace + [e]) == Monus(Credit(env, trace), if Woken(e) then 1 else 0)
    ensures Clock(env, start, trace + [e])
         == match e case Slept(_, _, until) => until case Yielded => Clock(env, start, trace) + env.late(|trace| + 1) case _ => Clock(env, start, trace)
    ensures forall limit | SleepsWithin(trace, limit) && (e.Slept? ==> e.due <= limit) :: SleepsWithin(trace + [e], limit)
  {
    hide Follows;
    assert (trace + [e])[..|trace + [e]| - 1] == trace;
  }

  // --- The engine --------------------------------------------------------------------------------------

  /** The guard: gives held units back, once. */
  method Fire(trace: seq<Event>, armed: bool) returns (ended: seq<Event>)
    requires NeverReleased(trace) && armed == HoldsUnits(trace)
    ensures ended == if armed then trace + [Released] else trace
    ensures forall outcome | outcome != Done :: EndsClean(ended, outcome)
    ensures LastAnswer(ended) == LastAnswer(trace) && Unreleased(ended) == trace
    ensures forall earlier | StepsNoMore(earlier, trace) :: StepsNoMore(earlier, ended)
    ensures forall deadline :: SleepsWithin(ended, deadline) == SleepsWithin(trace, deadline)
  {
    ended := trace;
    if armed {
      ended := trace + [Released];
      assert ended[..|ended| - 1] == trace;
      assert forall i | 0 <= i < |trace| :: ended[i] == trace[i];
    }
  }

  /** Sleeps `nap`, or, when listening for a resume, until one arrives. Short naps do not listen. */
  method Nap(env: Env, trace: seq<Event>, now: nat, nap: nat, listening: bool, resumes: nat)
    returns (e: Event, later: nat, left: nat, dropped: bool)
    requires nap > 0
    ensures if listening && nap > SHORT_NAP && resumes > 0 && env.resumed(|trace|) then
              e == Resumed && later == now && !dropped
            else
              && e == Slept(now, now + nap, later) && later == WakesAt(env, |trace| + 1, resumes, now, nap, listening)
              && dropped == env.dropped(|trace| + 1)
    ensures left == resumes - if Woken(e) then 1 else 0
    ensures later >= now && (left == resumes ==> later >= now + nap) && (later <= now + nap || !Punctual(env))
  {
    left := resumes;
    if listening && nap > SHORT_NAP && resumes > 0 && env.resumed(|trace|) {
      return Resumed, now, resumes - 1, false;
    }
    later := now + nap + env.late(|trace| + 1);
    if listening && nap > SHORT_NAP && resumes > 0 && env.resumed(|trace| + 1) {
      // Woken part-way by the notification.
      later := now + env.early(|trace| + 1) % nap;
      left := resumes - 1;
    }
    e, dropped := Slept(now, now + nap, later), env.dropped(|trace| + 1);
  }

  /** After a grant: a pause set while the units matured is slept out too. */
  method SitOutPause(env: Env, ghost begun: nat, deadline: nat, before: seq<Event>, start: nat, credit: nat)
    returns (outcome: Outcome, trace: seq<Event>, now: nat)
    requires NeverReleased(before) && Matured(before)
    requires Played(env, begun, deadline, before) && start == Clock(env, begun, before) && credit == Credit(env, before)
    requires JustAwaited(before) ==> !env.dropped(|before|)
    ensures EndsClean(trace, outcome) && LastAnswer(trace) == LastAnswer(before)
    ensures Played(env, begun, deadline, Unreleased(trace)) && now == Clock(env, begun, Unreleased(trace)) >= start
    ensures Ends(env, begun, deadline, Unreleased(trace), outcome) && outcome != Refused
    ensures StepsNoMore(before, trace)
    ensures SleepsWithin(before, deadline) ==> SleepsWithin(trace, deadline)
    ensures Punctual(env) && start <= deadline ==> now <= deadline
  {
    hide Played, Credit, Clock, SleepsWithin, Zeros, LastAnswer, Follows, WakesAt, WaitsOn, StepsNoMore;
    NoMore(before);
    trace, now := before, start;
    var resumes := credit;
    while true
      invariant NeverReleased(trace) && LastAnswer(trace) == LastAnswer(before) && Matured(trace)
      invariant StepsNoMore(before, trace)
      invariant Played(env, begun, deadline, trace) && now == Clock(env, begun, trace) >= start && resumes == Credit(env, trace)
      invariant JustAwaited(trace) ==> !env.dropped(|trace|)
      invariant SleepsWithin(before, deadline) ==> SleepsWithin(trace, deadline)
      invariant Punctual(env) && start <= deadline ==> now <= deadline
      decreases resumes, Monus(deadline, now)
    {
      var pause := env.paused(|trace|);
      if pause == 0 {
        return Done, trace, now;
      }
      if pause > Monus(deadline, now) {
        trace := Fire(trace, true);
        return TimedOut, trace, now;
      }
      var dropped;
      trace, now, resumes, dropped := SitOutOnce(env, begun, deadline, trace, now, pause, resumes);
      if dropped {
        trace := Fire(trace, true);
        return Dropped, trace, now;
      }
    }
  }

  /** One sleep of a pause. */
  method SitOutOnce(env: Env, ghost begun: nat, deadline: nat, before: seq<Event>, start: nat, pause: nat, credit: nat)
    returns (trace: seq<Event>, now: nat, resumes: nat, dropped: bool)
    requires NeverReleased(before) && Matured(before) && SitsOut(env, begun, deadline, before) && pause == env.paused(|before|)
    requires Played(env, begun, deadline, before) && start == Clock(env, begun, before) && credit == Credit(env, before)
    requires JustAwaited(before) ==> !env.dropped(|before|)
    ensures NeverReleased(trace) && LastAnswer(trace) == LastAnswer(before) && Matured(trace)
    ensures forall earlier | StepsNoMore(earlier, before) :: StepsNoMore(earlier, trace)
    ensures Played(env, begun, deadline, trace) && now == Clock(env, begun, trace) >= start && resumes == Credit(env, trace)
    ensures dropped == (JustAwaited(trace) && env.dropped(|trace|))
    ensures resumes < credit || (resumes == credit && now >= start + pause)
    ensures SleepsWithin(before, deadline) ==> SleepsWithin(trace, deadline)
    ensures Punctual(env) ==> now <= deadline
  {
    hide Played, Credit, Clock, SleepsWithin, Zeros;
    var e;
    e, now, resumes, dropped := Nap(env, before, start, pause, true, credit);
    Extend(env, begun, deadline, before, e);
    trace := before + [e];
  }

  /** A grant: sleep until the units may be used, then sit out any pause. */
  method Mature(env: Env, ghost begun: nat, deadline: nat, before: seq<Event>, start: nat, wait: nat, resumes: nat)
    returns (outcome: Outcome, trace: seq<Event>, now: nat)
    requires NeverReleased(before) && JustAsked(before) && LastAnswer(before) == Some(Granted(wait))
    requires Played(env, begun, deadline, before) && start == Clock(env, begun, before) && resumes == Credit(env, before)
    requires before[|before| - 1].at == start
    ensures EndsClean(trace, outcome) && LastAnswer(trace) == LastAnswer(before)
    ensures Played(env, begun, deadline, Unreleased(trace)) && now == Clock(env, begun, Unreleased(trace))
    ensures Ends(env, begun, deadline, Unreleased(trace), outcome) && outcome != Refused
    ensures outcome == Done ==> WaitedOut(trace, now)
    ensures (wait == 0 || start + wait <= deadline) && SleepsWithin(before, deadline) ==> SleepsWithin(trace, deadline)
    ensures Punctual(env) && start + wait <= deadline ==> now <= deadline
  {
    hide Played, Credit, Clock, SleepsWithin, Zeros, Ends;
    trace, now := before, start;
    if wait > 0 {
      var e, later, left, dropped := Nap(env, trace, now, wait, false, resumes);
      Extend(env, begun, deadline, trace, e);
      trace, now := trace + [e], later;
      if dropped {
        trace := Fire(trace, true);
        EndsDropped(env, begun, deadline, Unreleased(trace));
        return Dropped, trace, now;
      }
    }
    outcome, trace, now := SitOutPause(env, begun, deadline, trace, now, resumes);
    if outcome == Done { assert GrantWaitedOut(trace, |before| - 1, now); }
  }

  lemma NoMore(trace: seq<Event>)
    ensures StepsNoMore(trace, trace)
  {
  }

  lemma EndsDropped(env: Env, start: nat, deadline: nat, trace: seq<Event>)
    requires JustAwaited(trace) && env.dropped(|trace|)
    ensures Ends(env, start, deadline, trace, Dropped)
  {
  }

  /** A lost race yields, once. */
  method YieldOnce(env: Env, ghost begun: nat, deadline: nat, before: seq<Event>, start: nat)
    returns (trace: seq<Event>, now: nat, dropped: bool)
    requires NeverReleased(before) && JustAsked(before) && AskedFor(LastAnswer(before).value) == Some(0) && Zeros(before) <= RACE_YIELDS
    requires Played(env, begun, deadline, before) && start == Clock(env, begun, before)
    ensures trace == before + [Yielded] && NeverReleased(trace) && JustAwaited(trace)
    ensures LastAnswer(trace) == LastAnswer(before) && Zeros(trace) == Zeros(before) && Credit(env, trace) == Credit(env, before)
    ensures Played(env, begun, deadline, trace) && now == Clock(env, begun, trace) >= start && dropped == env.dropped(|trace|)
    ensures (SleepsWithin(before, deadline) ==> SleepsWithin(trace, deadline)) && (Punctual(env) ==> now == start)
  {
    hide Played, Credit, Clock, SleepsWithin;
    Extend(env, begun, deadline, before, Yielded);
    trace := before + [Yielded];
    now := start + env.late(|trace|);
    dropped := env.dropped(|trace|);
  }

  /** A wait that fits is slept on, unless a resume has come since the step. */
  method SleepOn(env: Env, ghost begun: nat, deadline: nat, before: seq<Event>, start: nat, nap: nat, credit: nat)
    returns (trace: seq<Event>, now: nat, resumes: nat, dropped: bool)
    requires NeverReleased(before) && WaitsOn(env, begun, deadline, before)
    requires nap == NapFor(AskedFor(LastAnswer(before).value).value, Monus(deadline, start)) && start + nap <= deadline
    requires Played(env, begun, deadline, before) && start == Clock(env, begun, before) && credit == Credit(env, before)
    ensures NeverReleased(trace) && trace != [] && !JustAsked(trace)
    ensures LastAnswer(trace) == LastAnswer(before) && Zeros(trace) == Zeros(before) && resumes == Credit(env, trace)
    ensures Played(env, begun, deadline, trace) && now == Clock(env, begun, trace) >= start
    ensures dropped == (JustAwaited(trace) && env.dropped(|trace|))
    ensures resumes < credit || (resumes == credit && now >= start + nap)
    ensures (SleepsWithin(before, deadline) ==> SleepsWithin(trace, deadline)) && (Punctual(env) ==> now <= deadline)
  {
    hide Played, Credit, Clock, SleepsWithin;
    var pause := env.paused(|before|);
    var e;
    if credit > 0 && env.resumed(|before|) {
      // The epoch moved since the step: look again now.
      e, now, resumes, dropped := Resumed, start, credit - 1, false;
    } else {
      e, now, resumes, dropped := Nap(env, before, start, nap, pause > 0, credit);
    }
    Extend(env, begun, deadline, before, e);
    trace := before + [e];
  }

  /** Between two steps: a lost race yields a few times and then naps briefly, anything else sleeps
      `after`; a resume cuts it short. `outcome` is set when the wait ends here. */
  method Pace(env: Env, ghost begun: nat, deadline: nat, before: seq<Event>, start: nat, after: nat, zeros: nat, credit: nat)
    returns (outcome: Option<Outcome>, trace: seq<Event>, now: nat, zeroWaits: nat, resumes: nat)
    requires NeverReleased(before) && JustAsked(before) && AskedFor(LastAnswer(before).value) == Some(after)
    requires Played(env, begun, deadline, before) && start == Clock(env, begun, before) && credit == Credit(env, before)
    requires after <= Monus(deadline, start) && Zeros(before) == if after == 0 then zeros + 1 else 0
    ensures LastAnswer(trace) == LastAnswer(before)
    ensures Played(env, begun, deadline, Unreleased(trace)) && now == Clock(env, begun, Unreleased(trace))
    ensures outcome.Some? ==>
              outcome.value in {TimedOut, Dropped} && EndsClean(trace, outcome.value) && Ends(env, begun, deadline, Unreleased(trace), outcome.value)
    ensures outcome.None? ==>
              && NeverReleased(trace) && !JustAsked(trace) && trace != [] && resumes == Credit(env, trace)
              && (JustAwaited(trace) ==> !env.dropped(|trace|)) && zeroWaits == Zeros(trace) == Zeros(before)
    ensures outcome.None? ==>
              || resumes < credit
              || (resumes == credit && Monus(deadline, now) < Monus(deadline, start))
              || (resumes == credit && Monus(deadline, now) <= Monus(deadline, start) && zeros < zeroWaits <= RACE_YIELDS)
    ensures SleepsWithin(before, deadline) ==> SleepsWithin(trace, deadline)
    ensures Punctual(env) && start <= deadline ==> now <= deadline
  {
    hide Played, Credit, Clock, SleepsWithin, Zeros, LastAnswer;
    outcome, trace, now, zeroWaits, resumes := None, before, start, 0, credit;
    var armed := HoldsUnits(before);
    var nap := after;
    var dropped;
    if after == 0 {
      zeroWaits := zeros + 1;
      if zeroWaits <= RACE_YIELDS {
        trace, now, dropped := YieldOnce(env, begun, deadline, before, start);
        if dropped {
          trace := Fire(trace, armed);
          outcome := Some(Dropped);
        }
        return;
      }
      var left := Monus(deadline, now);
      if left == 0 {
        // Ready at once, time after time, and no time is left.
        trace := Fire(trace, armed);
        outcome := Some(TimedOut);
        return;
      }
      nap := Min(RACE_BACKOFF, left);
    }
    trace, now, resumes, dropped := SleepOn(env, begun, deadline, before, start, nap, credit);
    if dropped {
      trace := Fire(trace, armed);
      outcome := Some(Dropped);
    }
  }

  /** `wait_with` under a timeout: it terminates, and against every environment
      - everything it does follows from what the environment did before, and it ends only for a reason: with success
        once the granted wait is over and no pause is left, dropped when the future was, out of time when something
        does not fit, refused when a step said never;
      - it gives held units back exactly once on every failing or cancelled path, and never on success;
      - it never asks to sleep past its deadline, and with punctual timers it is over by then. */
  method WaitWith(env: Env, start: nat, timeout: nat) returns (outcome: Outcome, trace: seq<Event>, now: nat)
    ensures Played(env, start, start + timeout, Unreleased(trace)) && now == Clock(env, start, Unreleased(trace))
    ensures Ends(env, start, start + timeout, Unreleased(trace), outcome)
    ensures EndsClean(trace, outcome)
    ensures outcome == Done ==> WaitedOut(trace, now) && env.paused(|trace|) == 0
    ensures outcome == Dropped ==> JustAwaited(Unreleased(trace)) && env.dropped(|Unreleased(trace)|)
    ensures outcome == Refused <==> LastAnswer(trace) == Some(Never)
    ensures WithinBudget(env) ==> SleepsWithin(trace, start + timeout)
    ensures WithinBudget(env) && Punctual(env) ==> now <= start + timeout
  {
    hide Played, Credit, Clock, SleepsWithin, WaitedOut;
    var deadline := start + timeout;
    var armed := false;
    var zeroWaits: nat := 0;
    var resumes := env.resumes;
    now := start;
    trace := [];
    Nothing(env, start, deadline);
    while true
      invariant NeverReleased(trace) && armed == HoldsUnits(trace)
      invariant Played(env, start, deadline, trace) && now == Clock(env, start, trace)
      invariant resumes == Credit(env, trace) && zeroWaits == Zeros(trace)
      invariant JustAwaited(trace) ==> !env.dropped(|trace|)
      invariant trace != [] ==> !JustAsked(trace) && LastAnswer(trace).Some? && AskedFor(LastAnswer(trace).value).Some?
      invariant WithinBudget(env) ==> SleepsWithin(trace, deadline)
      invariant WithinBudget(env) && Punctual(env) ==> now <= deadline
      decreases resumes, Monus(deadline, now), Monus(RACE_YIELDS, zeroWaits)
    {
      var budget := Monus(deadline, now);
      var answer := env.step(|trace|, budget);
      Extend(env, start, deadline, trace, Asked(now, budget, answer));
      trace := trace + [Asked(now, budget, answer)];
      var after: nat;
      match answer {
        case Granted(wait) =>
          outcome, trace, now := Mature(env, start, deadline, trace, now, wait, resumes);
          return;
        case Holding(wait) =>
          armed := true;
          after := wait;
        case Retry(wait) =>
          armed := false;
          after := wait;
        case Never =>
          armed := false;
          return Refused, trace, now;
      }
      if after > budget {
        trace := Fire(trace, armed);
        return TimedOut, trace, now;
      }
      var ended;
      ended, trace, now, zeroWaits, resumes := Pace(env, start, deadline, trace, now, after, zeroWaits, resumes);
      if ended.Some? {
        return ended.value, trace, now;
      }
    }
  }

  lemma Nothing(env: Env, start: nat, deadline: nat)
    ensures Played(env, start, deadline, []) && Clock(env, start, []) == start && Credit(env, []) == env.resumes
    ensures SleepsWithin([], deadline) && Unreleased([]) == []
  {
  }

  // --- What a trace that played out shows ------------------------------------------------------------------

  lemma {:induction false} PlayedAt(env: Env, start: nat, deadline: nat, trace: seq<Event>, i: nat)
    requires Played(env, start, deadline, trace) && i < |trace|
    ensures Played(env, start, deadline, trace[..i]) && Follows(env, start, deadline, trace[..i], trace[i])
    decreases |trace|
  {
    hide Follows;
    var n := |trace| - 1;
    if i < n {
      PlayedAt(env, start, deadline, trace[..n], i);
      assert trace[..n][..i] == trace[..i];
    }
  }

  /** The instant each step is taken at is the clock's, its budget is the time left, and its answer is the step's own. */
  lemma StepsAsk(env: Env, start: nat, deadline: nat, trace: seq<Event>, i: nat)
    requires Played(env, start, deadline, trace) && i < |trace| && trace[i].Asked?
    ensures trace[i].budget == Monus(deadline, trace[i].at) && trace[i].answer == env.step(i, trace[i].budget)
    ensures i == 0 ==> trace[i].at == start
    ensures i > 0 && trace[i - 1].Slept? ==> trace[i].at == trace[i - 1].until
  {
    PlayedAt(env, start, deadline, trace, i);
    hide LastAnswer, Zeros, Credit;
  }

  lemma AskedNow(env: Env, start: nat, deadline: nat, trace: seq<Event>)
    requires Played(env, start, deadline, trace) && JustAsked(trace)
    ensures Clock(env, start, trace) == trace[|trace| - 1].at && LastAnswer(trace) == Some(trace[|trace| - 1].answer)
  {
    hide Zeros, Credit;
  }

  /** A sleep ends no earlier than asked, except that a resume can cut short one that is not brief. */
  lemma SleepsLongEnough(env: Env, start: nat, deadline: nat, trace: seq<Event>, i: nat)
    requires Played(env, start, deadline, trace) && i < |trace| && trace[i].Slept?
    ensures var Slept(from, due, until) := trace[i];
            && from < due && (until >= due || (env.resumed(i + 1) && due - from > SHORT_NAP))
  {
    PlayedAt(env, start, deadline, trace, i);
    hide Zeros, Credit, LastAnswer, Clock, Played, WaitsOn, SitsOut, Matured, JustAsked, EpochMoved;
  }

  /** How long a sleep is asked to be after these events. */
  predicate AskedToSleep(env: Env, deadline: nat, before: seq<Event>, from: nat, due: nat) {
    if JustAsked(before) then
      var last := before[|before| - 1];
      && from == last.at
      && match last.answer
         case Granted(wait) => due == from + if wait > 0 then wait else env.paused(|before|)
         case Holding(wait) => due == from + if wait > 0 then wait else Min(RACE_BACKOFF, Monus(deadline, from))
         case Retry(wait) => due == from + if wait > 0 then wait else Min(RACE_BACKOFF, Monus(deadline, from))
         case Never => false
    else due == from + env.paused(|before|)
  }

  /** Every sleep is as long as what asked for it: the granted wait, the wait to retry, a brief nap after too many lost
      races, or the pause. */
  lemma SleepsAsAsked(env: Env, start: nat, deadline: nat, trace: seq<Event>, i: nat)
    requires Played(env, start, deadline, trace) && i < |trace| && trace[i].Slept?
    ensures AskedToSleep(env, deadline, trace[..i], trace[i].from, trace[i].due)
  {
    PlayedAt(env, start, deadline, trace, i);
    if JustAsked(trace[..i]) { AskedNow(env, start, deadline, trace[..i]); }
    hide Zeros, Credit, LastAnswer, Clock, Played, WakesAt, EpochMoved;
  }
}

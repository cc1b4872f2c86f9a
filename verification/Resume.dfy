/** Pausing, resuming, and the waiters that sleep a pause out.

    Lifting a pause bumps a process-wide epoch, clears the limiter's hold word, and then notifies
    every registered sleeper. A waiter reads the epoch, finds its limiter held or short of units, looks at
    the hold again, compares the epoch, registers a listener, compares the epoch once more and sleeps. Every
    one of these is a step, and any number of waiters, limiters and resumers interleave.

    The source says a waiter never sleeps through a resume. Apart from naps of at most a millisecond, which
    nothing cuts short, that holds exactly when no resumer of its limiter is between its bump and its clear at
    the moment the waiter reads the epoch. */
module Resume {
  import opened Common

  // --- The hold word ----------------------------------------------------------------------------

  /** `Hold::extend`: the end of the hold moves forward only, saturating; zero asks for nothing. */
  function Extended(until: nat, now: nat, span: nat): nat {
    if span == 0 then until else Max(until, Max(1, SatAdd(now, Min(span, U64_MAX))))
  }

  function Remaining(until: nat, now: nat): nat {
    Monus(until, now)
  }

  class Hold {
    var untilNs: nat

    constructor ()
      ensures untilNs == 0
    {
      untilNs := 0;
    }

    method Extend(now: nat, span: nat)
      modifies this
      ensures untilNs == Extended(old(untilNs), now, span)
    {
      if span == 0 {
        return;
      }
      var capped := if span <= U64_MAX then span else U64_MAX;
      var until := SatAdd(now, capped);
      if until < 1 {
        until := 1;
      }
      if until > untilNs {
        untilNs := until;
      }
    }

    /** Clears the hold and says whether one was set. */
    method Clear() returns (was: bool)
      modifies this
      ensures untilNs == 0 && was == (old(untilNs) != 0)
    {
      was := untilNs != 0;
      untilNs := 0;
    }
  }

  /** Holds of a limiter, given as (now, span), one after another. */
  function ExtendAll(until: nat, holds: seq<(nat, nat)>): nat {
    if holds == [] then until
    else Extended(ExtendAll(until, holds[..|holds| - 1]), holds[|holds| - 1].0, holds[|holds| - 1].1)
  }

  /** No later hold shortens an earlier one: after any holds, at any instant the limiter is held if and
      only if one of them alone (or the hold there was) would still hold it. */
  lemma {:induction false} HeldIffSomeHoldApplies(until: nat, holds: seq<(nat, nat)>, t: nat)
    ensures Remaining(ExtendAll(until, holds), t) > 0
       <==> until > t || exists i :: 0 <= i < |holds| && Remaining(Extended(0, holds[i].0, holds[i].1), t) > 0
  {
    if holds != [] {
      var n := |holds| - 1;
      HeldIffSomeHoldApplies(until, holds[..n], t);
      if i :| 0 <= i < |holds| && Remaining(Extended(0, holds[i].0, holds[i].1), t) > 0 {
        assert i < n ==> holds[..n][i] == holds[i];
      }
      if Remaining(ExtendAll(until, holds[..n]), t) > 0 && until <= t {
        var i :| 0 <= i < n && Remaining(Extended(0, holds[..n][i].0, holds[..n][i].1), t) > 0;
        assert holds[i] == holds[..n][i];
      }
    }
  }

  /** Naps no longer than this are slept without a listener. */
  const SHORT_NAP: nat := 1_000_000

  // --- The protocol ---------------------------------------------------------------------------------

  datatype ResumerPhase =
    | Idle
    | Bumped                 // the epoch is bumped, the hold not yet cleared
    | Cleared(lift: nat)     // it lifted the hold (the limiter's `lift`-th), not yet notified
    | Finished               // notified, or there was no hold to lift

  datatype Resumer = Resumer(limiter: nat, phase: ResumerPhase)

  datatype WaiterPhase =
    | ReadEpoch
    | Consult                // about to run the step (or read the pause), which looks at the hold
    | Recheck(nap: nat)                 // has to wait for `nap`; about to look at the hold again
    | Compare(paused: bool, nap: nat)   // about to compare the epoch
    | Register(nap: nat)                // about to register a listener, or to nap if that is short
    | Final                             // registered; about to compare the epoch once more
    | Dozing(lifted: bool)              // asleep without a listener, finding no pause (was one lifted?)
    | Asleep                            // asleep, registered
    | Napping(begun: nat, due: nat)     // asleep for a short nap, without a listener
    | Done

  /** `seenLifts`, `inFlight` and `readings` are history: how often the limiter had been lifted, and which of its
      resumers were between bump and clear, when the epoch was read, and how often it has been read. */
  datatype Waiter = Waiter(limiter: nat, phase: WaiterPhase, notified: bool, epoch: nat, seenLifts: nat, inFlight: set<nat>, readings: nat)

  datatype State = State(now: nat, epoch: nat, holds: seq<nat>, lifts: seq<nat>, resumers: seq<Resumer>, waiters: seq<Waiter>)

  datatype Move =
    | Tick(to: nat)
    | Pause(limiter: nat, span: nat)
    | NewResumer(limiter: nat)
    | NewWaiter(limiter: nat)
    | Bump(r: nat)
    | Clear(r: nat)
    | Broadcast(r: nat)
    | Step(w: nat)               // the waiter's next step
    | PauseLoop(w: nat)          // a granted waiter goes from reading the pause straight to registering
    | Refill(w: nat, nap: nat)   // the step finds no pause, and asks for a wait until units are back
    | Rouse(w: nat)              // its timer fires or its mark arrives

  predicate Shaped(s: State) {
    && |s.lifts| == |s.holds|
    && (forall r | 0 <= r < |s.resumers| :: s.resumers[r].limiter < |s.holds|)
    && (forall w | 0 <= w < |s.waiters| :: s.waiters[w].limiter < |s.holds|)
  }

  predicate Enabled(s: State, m: Move)
    requires Shaped(s)
  {
    match m
    case Tick(to) => to >= s.now
    case Pause(l, _) => l < |s.holds|
    case NewResumer(l) => l < |s.holds|
    case NewWaiter(l) => l < |s.holds|
    case Bump(r) => r < |s.resumers| && s.resumers[r].phase == Idle
    case Clear(r) => r < |s.resumers| && s.resumers[r].phase == Bumped
    case Broadcast(r) => r < |s.resumers| && s.resumers[r].phase.Cleared?
    case Step(w) => w < |s.waiters| && !Sleeping(s.waiters[w]) && s.waiters[w].phase != Done
    case PauseLoop(w) => w < |s.waiters| && s.waiters[w].phase == Consult && Held(s, s.waiters[w].limiter)
    case Refill(w, _) => w < |s.waiters| && s.waiters[w].phase == Consult && !Held(s, s.waiters[w].limiter)
    case Rouse(w) => w < |s.waiters| && Sleeping(s.waiters[w])
  }

  predicate Sleeping(w: Waiter) {
    w.phase.Dozing? || w.phase == Asleep || w.phase.Napping?
  }

  predicate Held(s: State, l: nat)
    requires l < |s.holds|
  {
    PauseLeft(s, l) > 0
  }

  function PauseLeft(s: State, l: nat): nat
    requires l < |s.holds|
  {
    Remaining(s.holds[l], s.now)
  }

  /** The resumers of limiter `l` that have bumped the epoch but not yet cleared the hold. */
  function InFlight(s: State, l: nat): set<nat> {
    set r | 0 <= r < |s.resumers| && s.resumers[r].limiter == l && s.resumers[r].phase == Bumped
  }

  function Put(s: State, i: nat, w: Waiter): State
    requires i < |s.waiters|
  {
    s.(waiters := s.waiters[i := w])
  }

  function SetPhase(s: State, r: nat, phase: ResumerPhase): State
    requires r < |s.resumers|
  {
    s.(resumers := s.resumers[r := s.resumers[r].(phase := phase)])
  }

  function Notified(w: Waiter): Waiter {
    if w.phase == Final || w.phase == Asleep then w.(notified := true) else w
  }

  function WaiterStep(s: State, w: Waiter): Waiter
    requires Shaped(s) && w.limiter < |s.holds|
  {
    match w.phase
    case ReadEpoch =>
      w.(phase := Consult, epoch := s.epoch, seenLifts := s.lifts[w.limiter], inFlight := InFlight(s, w.limiter), readings := w.readings + 1)
    case Consult => w.(phase := if Held(s, w.limiter) then Recheck(PauseLeft(s, w.limiter)) else Done)
    case Recheck(nap) => w.(phase := Compare(Held(s, w.limiter), nap))
    case Compare(paused, nap) =>
      w.(phase := if s.epoch != w.epoch then ReadEpoch else if paused then Register(nap) else Dozing(Lifted(s, w)))
    case Register(nap) =>
      if nap <= SHORT_NAP then w.(phase := Napping(s.now, s.now + nap)) else w.(phase := Final, notified := false)
    case Final => w.(phase := if s.epoch != w.epoch then ReadEpoch else Asleep)
    case _ => w
  }

  function Apply(s: State, m: Move): State
    requires Shaped(s) && Enabled(s, m)
  {
    match m
    case Tick(to) => s.(now := to)
    case Pause(l, span) => s.(holds := s.holds[l := Extended(s.holds[l], s.now, span)])
    case NewResumer(l) => s.(resumers := s.resumers + [Resumer(l, Idle)])
    case NewWaiter(l) => s.(waiters := s.waiters + [Waiter(l, ReadEpoch, false, 0, 0, {}, 0)])
    case Bump(r) => SetPhase(s, r, Bumped).(epoch := s.epoch + 1)
    case Clear(r) => (
      var l := s.resumers[r].limiter;
      if s.holds[l] == 0 then SetPhase(s, r, Finished)
      else SetPhase(s, r, Cleared(s.lifts[l] + 1)).(holds := s.holds[l := 0], lifts := s.lifts[l := s.lifts[l] + 1]))
    case Broadcast(r) =>
      SetPhase(s, r, Finished).(waiters := seq(|s.waiters|, i requires 0 <= i < |s.waiters| => Notified(s.waiters[i])))
    case Step(w) => Put(s, w, WaiterStep(s, s.waiters[w]))
    case PauseLoop(w) => Put(s, w, s.waiters[w].(phase := Register(PauseLeft(s, s.waiters[w].limiter))))
    case Refill(w, nap) => Put(s, w, s.waiters[w].(phase := Recheck(nap)))
    case Rouse(w) => Put(s, w, s.waiters[w].(phase := ReadEpoch))
  }

  ghost predicate Runs(s: State, moves: seq<Move>, t: State)
    requires Shaped(s)
    decreases |moves|
  {
    if moves == [] then s == t
    else Enabled(s, moves[0]) && Runs(Apply(s, moves[0]), moves[1..], t)
  }

  function Start(limiters: nat): State {
    State(0, 0, seq(limiters, _ => 0), seq(limiters, _ => 0), [], [])
  }

  /** The limiter's pause has been lifted since the waiter read the epoch. */
  predicate Lifted(s: State, w: Waiter) {
    w.limiter < |s.lifts| && s.lifts[w.limiter] > w.seenLifts
  }

  /** A resumer that has lifted the waiter's pause since it read the epoch, and has yet to notify. */
  predicate WillWake(s: State, w: Waiter, r: nat) {
    && r < |s.resumers| && s.resumers[r].limiter == w.limiter
    && s.resumers[r].phase.Cleared? && s.resumers[r].phase.lift > w.seenLifts
  }

  /** The waiter sleeps on, for more than a short nap, although a pause of its limiter was lifted after it
      read the epoch, and nobody is going to tell it. */
  ghost predicate SleptThrough(s: State, w: Waiter) {
    || w.phase == Dozing(true)
    || (w.phase == Asleep && !w.notified && Lifted(s, w) && !exists r :: WillWake(s, w, r))
  }

  // --- When it cannot happen ------------------------------------------------------------------------

  predicate Outdated(s: State, w: Waiter) {
    s.epoch > w.epoch
  }

  ghost predicate WaiterInv(s: State, w: Waiter)
    requires Shaped(s) && w.limiter < |s.holds|
  {
    && w.epoch <= s.epoch
    && w.seenLifts <= s.lifts[w.limiter]
    && (w.inFlight == {} ==>
          // Whoever is between bump and clear now has moved the epoch since it was read.
          && (forall r | 0 <= r < |s.resumers| && s.resumers[r] == Resumer(w.limiter, Bumped) :: Outdated(s, w))
          && (Lifted(s, w) ==> Outdated(s, w))
          && !SleptThrough(s, w))
  }

  ghost predicate Inv(s: State) {
    && Shaped(s)
    && (forall r | 0 <= r < |s.resumers| && s.resumers[r].phase.Cleared? ::
          s.resumers[r].phase.lift <= s.lifts[s.resumers[r].limiter])
    && (forall w | 0 <= w < |s.waiters| && s.waiters[w].phase != ReadEpoch :: WaiterInv(s, s.waiters[w]))
  }

  lemma ResumerStepKeeps(s: State, m: Move)
    requires Inv(s) && Enabled(s, m) && (m.Bump? || m.Clear?)
    ensures Inv(Apply(s, m))
  {
    var t := Apply(s, m);
    forall i | 0 <= i < |t.waiters| && t.waiters[i].phase != ReadEpoch ensures WaiterInv(t, t.waiters[i]) {
      var w := t.waiters[i];
      assert WaiterInv(s, w);
      if w.inFlight == {} && w.phase == Asleep && !w.notified && Lifted(t, w) {
        if Lifted(s, w) {
          var r :| WillWake(s, w, r);
          assert WillWake(t, w, r);
        } else {
          assert WillWake(t, w, m.r);
        }
      }
    }
  }

  lemma BroadcastKeeps(s: State, r: nat)
    requires Inv(s) && Enabled(s, Broadcast(r))
    ensures Inv(Apply(s, Broadcast(r)))
  {
    var t := Apply(s, Broadcast(r));
    forall i | 0 <= i < |t.waiters| && t.waiters[i].phase != ReadEpoch ensures WaiterInv(t, t.waiters[i]) {
      assert WaiterInv(s, s.waiters[i]);
    }
  }

  lemma WaiterStepKeeps(s: State, m: Move)
    requires Inv(s) && Enabled(s, m) && (m.Step? || m.PauseLoop? || m.Refill? || m.Rouse?)
    ensures Inv(Apply(s, m))
  {
    var t := Apply(s, m);
    if t.waiters[m.w].phase != ReadEpoch { OwnStepKeeps(s, m); }
    hide SleptThrough;
    forall i | 0 <= i < |t.waiters| && t.waiters[i].phase != ReadEpoch ensures WaiterInv(t, t.waiters[i]) {
      if i != m.w {
        assert WaiterInv(s, t.waiters[i]);
        SameNews(s, t, t.waiters[i]);
      }
    }
  }

  lemma OwnStepKeeps(s: State, m: Move)
    requires Inv(s) && Enabled(s, m) && (m.Step? || m.PauseLoop? || m.Refill? || m.Rouse?)
    requires Apply(s, m).waiters[m.w].phase != ReadEpoch
    ensures WaiterInv(Apply(s, m), Apply(s, m).waiters[m.w])
  {
    var w := Apply(s, m).waiters[m.w];
    if s.waiters[m.w].phase != ReadEpoch {
      assert WaiterInv(s, s.waiters[m.w]);
    } else {
      assert forall r | 0 <= r < |s.resumers| && s.resumers[r] == Resumer(w.limiter, Bumped) :: r in w.inFlight;
    }
  }

  /** What a waiter may sleep through depends on the lifts and the resumers only. */
  lemma SameNews(s: State, t: State, w: Waiter)
    requires t.lifts == s.lifts && t.resumers == s.resumers
    ensures SleptThrough(t, w) == SleptThrough(s, w)
  {
    assert forall r: nat :: WillWake(t, w, r) == WillWake(s, w, r);
  }

  lemma OtherStepKeeps(s: State, m: Move)
    requires Inv(s) && Enabled(s, m) && (m.Tick? || m.Pause? || m.NewResumer? || m.NewWaiter?)
    ensures Inv(Apply(s, m))
  {
    var t := Apply(s, m);
    forall i | 0 <= i < |t.waiters| && t.waiters[i].phase != ReadEpoch ensures WaiterInv(t, t.waiters[i]) {
      var w := t.waiters[i];
      assert WaiterInv(s, w);
      if r :| WillWake(s, w, r) {
        assert WillWake(t, w, r);
      }
    }
  }

  lemma {:induction false} RunKeeps(s: State, moves: seq<Move>, t: State)
    requires Inv(s) && Runs(s, moves, t)
    ensures Inv(t)
    decreases |moves|
  {
    if moves != [] {
      match moves[0] {
        case Bump(_) => ResumerStepKeeps(s, moves[0]);
        case Clear(_) => ResumerStepKeeps(s, moves[0]);
        case Broadcast(r) => BroadcastKeeps(s, r);
        case Step(_) => WaiterStepKeeps(s, moves[0]);
        case PauseLoop(_) => WaiterStepKeeps(s, moves[0]);
        case Refill(_, _) => WaiterStepKeeps(s, moves[0]);
        case Rouse(_) => WaiterStepKeeps(s, moves[0]);
        case _ => OtherStepKeeps(s, moves[0]);
      }
      RunKeeps(Apply(s, moves[0]), moves[1..], t);
    }
  }

  // --- Main results -----------------------------------------------------------------------------------

  /** A waiter that read the epoch while no resumer of its limiter was between bump and clear never
      sleeps through a resume, but for a nap of at most a millisecond: if it sleeps on unmarked although its
      pause was lifted since, the resumer that lifted it has yet to notify. */
  lemma NeverSleptThrough(limiters: nat, moves: seq<Move>, t: State, w: nat)
    requires Runs(Start(limiters), moves, t)
    requires w < |t.waiters| && t.waiters[w].phase != ReadEpoch && t.waiters[w].inFlight == {}
    ensures t.waiters[w].phase != Dozing(true)
    ensures t.waiters[w].phase == Asleep && !t.waiters[w].notified && Lifted(t, t.waiters[w]) ==>
              exists r :: WillWake(t, t.waiters[w], r)
  {
    RunKeeps(Start(limiters), moves, t);
    assert WaiterInv(t, t.waiters[w]);
  }

  /** From here the waiter can come to sleep through a resume before it reads the epoch again. */
  ghost predicate MaySleepThrough(s: State, w: nat)
    requires Shaped(s) && w < |s.waiters|
  {
    exists moves: seq<Move>, t: State ::
      Runs(s, moves, t) && w < |t.waiters| && t.waiters[w].readings == s.waiters[w].readings && SleptThrough(t, t.waiters[w])
  }

  lemma StepSameReading(s: State, m: Move, w: nat)
    requires Shaped(s) && Enabled(s, m) && w < |s.waiters|
    ensures var t := Apply(s, m);
            && w < |t.waiters| && t.waiters[w].readings >= s.waiters[w].readings
            && (t.waiters[w].readings == s.waiters[w].readings ==> t.waiters[w].inFlight == s.waiters[w].inFlight)
  {
  }

  /** Resumers about to notify have each lifted a pause of their own. */
  predicate LiftsApart(s: State)
    requires Shaped(s)
  {
    && (forall r | 0 <= r < |s.resumers| && s.resumers[r].phase.Cleared? ::
          1 <= s.resumers[r].phase.lift <= s.lifts[s.resumers[r].limiter])
    && (forall q, r | 0 <= q < r < |s.resumers| && s.resumers[q].phase.Cleared? && s.resumers[r].phase.Cleared?
                      && s.resumers[q].limiter == s.resumers[r].limiter :: s.resumers[q].phase.lift != s.resumers[r].phase.lift)
  }

  lemma ApartStep(s: State, m: Move)
    requires Shaped(s) && LiftsApart(s) && Enabled(s, m)
    ensures LiftsApart(Apply(s, m))
  {
    hide WaiterStep, Notified, Extended, Remaining, Held, PauseLeft, InFlight;
    if m.Clear? { ApartClear(s, m.r); }
  }

  lemma ApartClear(s: State, r: nat)
    requires Shaped(s) && LiftsApart(s) && Enabled(s, Clear(r))
    ensures LiftsApart(Apply(s, Clear(r)))
  {
    hide WaiterStep, Notified, Extended, Remaining, Held, PauseLeft, InFlight;
  }

  lemma {:induction false} RunApart(s: State, moves: seq<Move>, t: State)
    requires Shaped(s) && LiftsApart(s) && Runs(s, moves, t)
    ensures Shaped(t) && LiftsApart(t)
    decreases |moves|
  {
    hide LiftsApart, Apply, Enabled, Shaped;
    if moves != [] {
      StaysShaped(s, moves[0]);
      ApartStep(s, moves[0]);
      RunApart(Apply(s, moves[0]), moves[1..], t);
    }
  }

  /** Only a resume that lifted a pause notifies, and every pause is lifted by one resume. */
  lemma OnlyLiftersNotify(limiters: nat, moves: seq<Move>, t: State)
    requires Runs(Start(limiters), moves, t)
    ensures Shaped(t) && LiftsApart(t)
  {
    RunApart(Start(limiters), moves, t);
  }

  /** A waiter whose limiter is not paused is done with its next two steps, undisturbed. */
  lemma UnheldIsDone(s: State, w: nat) returns (t: State)
    requires Shaped(s) && w < |s.waiters| && s.waiters[w].phase == ReadEpoch && !Held(s, s.waiters[w].limiter)
    ensures Runs(s, Steps(w, 2), t) && w < |t.waiters| && t.waiters[w].phase == Done
  {
    var v := s.waiters[w];
    var read := WaiterStep(s, v);
    var done := read.(phase := Done);
    t := Put(s, w, done);
    assert Put(s, w, v) == s;
    NoRun(t);
    Walk(s, w, read, done, 0, t);
    Walk(s, w, v, read, 1, t);
  }

  /** A waiter that finds no pause at its second look does not listen for a resume: it looks again or just sleeps,
      whatever the others did before its next step. */
  lemma OnlyPausedListen(s: State, u: State, v: Waiter)
    requires Shaped(s) && Shaped(u) && v.limiter < |s.holds| && v.limiter < |u.holds| && v.phase.Recheck?
    ensures var second := WaiterStep(u, WaiterStep(s, v));
            && (Held(s, v.limiter) ==> second.phase == ReadEpoch || second.phase == Register(v.phase.nap))
            && (!Held(s, v.limiter) ==> second.phase == ReadEpoch || second.phase.Dozing?)
            && (second.phase == ReadEpoch <==> u.epoch != v.epoch)
  {
  }

  /** Until it reads the epoch again, what a waiter knew when it read it stands. */
  lemma {:induction false} SameReading(s: State, moves: seq<Move>, t: State, w: nat)
    requires Shaped(s) && Runs(s, moves, t) && w < |s.waiters|
    ensures w < |t.waiters| && t.waiters[w].readings >= s.waiters[w].readings
    ensures t.waiters[w].readings == s.waiters[w].readings ==> t.waiters[w].inFlight == s.waiters[w].inFlight
    decreases |moves|
  {
    hide Apply, Enabled, Shaped;
    if moves != [] {
      StaysShaped(s, moves[0]);
      StepSameReading(s, moves[0], w);
      SameReading(Apply(s, moves[0]), moves[1..], t, w);
    }
  }

  /** Exactly when a waiter that has just read the epoch can sleep through a resume: a resumer of its limiter
      had bumped the epoch and not yet cleared the hold. */
  lemma SleepsThroughIffResumerUnderWay(limiters: nat, moves: seq<Move>, s: State, w: nat)
    requires Runs(Start(limiters), moves, s) && Shaped(s) && s.now + SHORT_NAP < U64_MAX
    requires w < |s.waiters| && s.waiters[w].phase == ReadEpoch
    ensures var read := Apply(s, Step(w));
            Shaped(read) && (MaySleepThrough(read, w) <==> InFlight(s, s.waiters[w].limiter) != {})
  {
    RunKeeps(Start(limiters), moves, s);
    var read := Apply(s, Step(w));
    WaiterStepKeeps(s, Step(w));
    if InFlight(s, s.waiters[w].limiter) == {} {
      forall more: seq<Move>, t: State | Runs(read, more, t) && w < |t.waiters| && t.waiters[w].readings == read.waiters[w].readings
        ensures !SleptThrough(t, t.waiters[w])
      {
        NoneSleptThrough(read, more, t, w);
      }
    } else {
      var r :| r in InFlight(s, s.waiters[w].limiter);
      var t := SleepThrough(read, w, r);
    }
  }

  lemma NoneSleptThrough(s: State, moves: seq<Move>, t: State, w: nat)
    requires Inv(s) && Runs(s, moves, t) && w < |s.waiters| && s.waiters[w].inFlight == {}
    requires w < |t.waiters| && t.waiters[w].readings == s.waiters[w].readings
    ensures !SleptThrough(t, t.waiters[w])
  {
    RunKeeps(s, moves, t);
    SameReading(s, moves, t, w);
    if t.waiters[w].phase != ReadEpoch { assert WaiterInv(t, t.waiters[w]); }
  }

  /** A short nap is another matter: from the start, for every length of it, a resume can come and go within
      it. The waiter reads the epoch, finds a pause of that length and naps, and only then does the resumer
      bump, clear and notify. */
  lemma NapMissesResume(span: nat) returns (t: State)
    requires 0 < span <= SHORT_NAP
    ensures Runs(Start(1), [NewWaiter(0), NewResumer(0), Step(0)] + (Look(0, 0, span) + Nap(0, 0)), t) && |t.waiters| == 1
    ensures t.waiters[0].phase == Napping(0, span) && Lifted(t, t.waiters[0])
    ensures forall q :: !WillWake(t, t.waiters[0], q)
  {
    var s := OneReader();
    ReadRuns();
    var u := LookRuns(s, 0, span);
    t := NapRuns(u, 0, 0);
    hide *;
    Join(s, Look(0, 0, span), u, Nap(0, 0), t);
    Join(Start(1), [NewWaiter(0), NewResumer(0), Step(0)], s, Look(0, 0, span) + Nap(0, 0), t);
  }

  /** The waiter naps, and the resumer comes and goes. */
  function Nap(w: nat, r: nat): seq<Move> {
    Steps(w, 1) + ([Bump(r)] + [Clear(r), Broadcast(r)])
  }

  /** A resumer and a waiter that has read the epoch. */
  function OneReader(): State {
    State(0, 0, [0], [0], [Resumer(0, Idle)], [Waiter(0, Consult, false, 0, 0, {}, 1)])
  }

  lemma ReaderSteps()
    ensures Shaped(Start(1)) && Enabled(Start(1), NewWaiter(0)) && Shaped(Apply(Start(1), NewWaiter(0)))
    ensures var u := Apply(Start(1), NewWaiter(0));
            && Enabled(u, NewResumer(0)) && Shaped(Apply(u, NewResumer(0)))
            && Enabled(Apply(u, NewResumer(0)), Step(0)) && Apply(Apply(u, NewResumer(0)), Step(0)) == OneReader()
    ensures Shaped(OneReader())
  {
    hide Runs;
    var u := Apply(Start(1), NewWaiter(0));
    var v := Apply(u, NewResumer(0));
    assert InFlight(v, 0) == {};
    assert v.resumers == [Resumer(0, Idle)] && v.waiters == [Waiter(0, ReadEpoch, false, 0, 0, {}, 0)];
    assert v.waiters[0 := OneReader().waiters[0]] == OneReader().waiters;
  }

  lemma ReadRuns()
    ensures Shaped(OneReader()) && Runs(Start(1), [NewWaiter(0), NewResumer(0), Step(0)], OneReader())
  {
    hide *;
    ReaderSteps();
    var s0 := Start(1);
    var s1 := Apply(s0, NewWaiter(0));
    var s2 := Apply(s1, NewResumer(0));
    NoRun(OneReader());
    Prepend(s2, Step(0), [], OneReader());
    Prepend(s1, NewResumer(0), [Step(0)] + [], OneReader());
    Prepend(s0, NewWaiter(0), [NewResumer(0)] + ([Step(0)] + []), OneReader());
    assert [NewWaiter(0)] + ([NewResumer(0)] + ([Step(0)] + [])) == [NewWaiter(0), NewResumer(0), Step(0)];
  }

  lemma NoRun(s: State)
    requires Shaped(s)
    ensures Runs(s, [], s)
  {
  }

  lemma NapRuns(s: State, w: nat, r: nat) returns (t: State)
    requires Shaped(s) && LiftsKnown(s) && w < |s.waiters| && s.waiters[w].phase.Register?
    requires var v := s.waiters[w]; v.phase.nap <= SHORT_NAP && v.seenLifts == s.lifts[v.limiter] && Held(s, v.limiter)
    requires r < |s.resumers| && s.resumers[r] == Resumer(s.waiters[w].limiter, Idle)
    ensures Runs(s, Nap(w, r), t) && |t.waiters| == |s.waiters|
    ensures t.waiters[w].phase == Napping(s.now, s.now + s.waiters[w].phase.nap) && Lifted(t, t.waiters[w])
    ensures forall q :: !WillWake(t, t.waiters[w], q)
  {
    var s1 := Apply(s, Step(w));
    var s2 := Apply(s1, Bump(r));
    t := ClearAndNotify(s2, w, r);
    Prepend(s1, Bump(r), [Clear(r), Broadcast(r)], t);
    Prepend(s, Step(w), [Bump(r)] + [Clear(r), Broadcast(r)], t);
    assert Steps(w, 1) == [Step(w)];
  }

  /** A pause is set; the waiter, which has read the epoch, finds it twice, and sees the epoch stand. */
  function Look(w: nat, l: nat, span: nat): seq<Move> {
    [Pause(l, span)] + Steps(w, 3)
  }

  function Steps(w: nat, n: nat): seq<Move> {
    if n == 0 then [] else [Step(w)] + Steps(w, n - 1)
  }

  /** The resumer clears and notifies before the waiter registers and compares once more. */
  function Miss(w: nat, r: nat): seq<Move> {
    [Clear(r), Broadcast(r)] + Steps(w, 2)
  }

  lemma LookRuns(s: State, w: nat, span: nat) returns (t: State)
    requires Shaped(s) && 0 < span && s.now + span <= U64_MAX && w < |s.waiters|
    requires var v := s.waiters[w]; v.phase == Consult && v.epoch == s.epoch && v.seenLifts == s.lifts[v.limiter]
    ensures Runs(s, Look(w, s.waiters[w].limiter, span), t) && Shaped(t)
    ensures t.resumers == s.resumers && t.lifts == s.lifts && t.epoch == s.epoch && t.now == s.now
    ensures |t.waiters| == |s.waiters| && t.waiters[w].phase.Register?
    ensures t.waiters[w] == s.waiters[w].(phase := t.waiters[w].phase) && Held(t, t.waiters[w].limiter)
    ensures t.waiters[w].phase.nap == Max(PauseLeft(s, s.waiters[w].limiter), span)
  {
    var l := s.waiters[w].limiter;
    var s1 := Apply(s, Pause(l, span));
    assert Held(s1, l);
    var nap := PauseLeft(s1, l);
    var v1 := s.waiters[w];
    var v2 := v1.(phase := Recheck(nap));
    var v3 := v1.(phase := Compare(true, nap));
    var v4 := v1.(phase := Register(nap));
    t := Put(s1, w, v4);
    assert Put(s1, w, v1) == s1;
    Walk(s1, w, v3, v4, 0, t);
    Walk(s1, w, v2, v3, 1, t);
    Walk(s1, w, v1, v2, 2, t);
    Prepend(s, Pause(l, span), Steps(w, 3), t);
  }

  /** One step of waiter `w`, from `v` to `v'`, in front of a run of `n` more. */
  lemma Walk(s: State, w: nat, v: Waiter, v': Waiter, n: nat, t: State)
    requires Shaped(s) && w < |s.waiters| && v.limiter < |s.holds| && v'.limiter == v.limiter
    requires !Sleeping(v) && v.phase != Done && v' == WaiterStep(s, v)
    requires Shaped(Put(s, w, v')) && Runs(Put(s, w, v'), Steps(w, n), t)
    ensures Shaped(Put(s, w, v)) && Runs(Put(s, w, v), Steps(w, n + 1), t)
  {
    var u := Put(s, w, v);
    assert WaiterStep(u, v) == v';
    assert Apply(u, Step(w)).waiters == Put(s, w, v').waiters;
    Prepend(u, Step(w), Steps(w, n), t);
  }

  /** Lifts recorded by resumers are lifts that happened. */
  predicate LiftsKnown(s: State)
    requires Shaped(s)
  {
    forall q | 0 <= q < |s.resumers| && s.resumers[q].phase.Cleared? :: s.resumers[q].phase.lift <= s.lifts[s.resumers[q].limiter]
  }

  lemma ClearAndNotify(s: State, w: nat, r: nat) returns (t: State)
    requires Shaped(s) && LiftsKnown(s) && w < |s.waiters| && r in InFlight(s, s.waiters[w].limiter)
    requires (s.waiters[w].phase.Register? || s.waiters[w].phase.Napping?) && s.holds[s.waiters[w].limiter] != 0
    requires s.waiters[w].seenLifts == s.lifts[s.waiters[w].limiter]
    ensures Runs(s, [Clear(r), Broadcast(r)], t) && Shaped(t) && t.epoch == s.epoch
    ensures |t.waiters| == |s.waiters| && t.waiters[w] == s.waiters[w] && Lifted(t, t.waiters[w])
    ensures forall q :: !WillWake(t, t.waiters[w], q)
  {
    var u := Apply(s, Clear(r));
    t := Apply(u, Broadcast(r));
    Prepend(u, Broadcast(r), [], t);
    Prepend(s, Clear(r), [Broadcast(r)], t);
    forall q ensures !WillWake(t, t.waiters[w], q) {}
  }

  lemma RegisterAndSleep(s: State, w: nat) returns (t: State)
    requires Shaped(s) && w < |s.waiters| && s.waiters[w].phase.Register? && s.waiters[w].epoch == s.epoch
    requires s.waiters[w].phase.nap > SHORT_NAP
    ensures Runs(s, Steps(w, 2), t)
    ensures t == Put(s, w, s.waiters[w].(phase := Asleep, notified := false))
  {
    var u := Apply(s, Step(w));
    t := Apply(u, Step(w));
    Prepend(u, Step(w), Steps(w, 0), t);
    Prepend(s, Step(w), Steps(w, 1), t);
  }

  lemma MissRuns(s: State, w: nat, r: nat) returns (t: State)
    requires Shaped(s) && LiftsKnown(s) && w < |s.waiters| && r in InFlight(s, s.waiters[w].limiter)
    requires var v := s.waiters[w];
             && v.phase.Register? && v.phase.nap > SHORT_NAP && Held(s, v.limiter)
             && v.epoch == s.epoch && v.seenLifts == s.lifts[v.limiter]
    ensures Runs(s, Miss(w, r), t)
    ensures w < |t.waiters| && t.waiters[w].readings == s.waiters[w].readings && SleptThrough(t, t.waiters[w])
  {
    var u := ClearAndNotify(s, w, r);
    t := RegisterAndSleep(u, w);
    Join(s, [Clear(r), Broadcast(r)], u, Steps(w, 2), t);
    forall q ensures !WillWake(t, t.waiters[w], q) {
      assert !WillWake(u, u.waiters[w], q);
    }
  }

  /** Registered too late for the notification and too late to see the epoch move, the waiter sleeps on. */
  lemma SleepThrough(s: State, w: nat, r: nat) returns (t: State)
    requires Inv(s) && s.now + SHORT_NAP < U64_MAX && w < |s.waiters| && r in InFlight(s, s.waiters[w].limiter)
    requires var v := s.waiters[w]; v.phase == Consult && v.epoch == s.epoch && v.seenLifts == s.lifts[v.limiter]
    ensures Runs(s, Look(w, s.waiters[w].limiter, SHORT_NAP + 1) + Miss(w, r), t)
    ensures w < |t.waiters| && t.waiters[w].readings == s.waiters[w].readings && SleptThrough(t, t.waiters[w])
  {
    var u := LookRuns(s, w, SHORT_NAP + 1);
    t := MissRuns(u, w, r);
    Join(s, Look(w, s.waiters[w].limiter, SHORT_NAP + 1), u, Miss(w, r), t);
  }

  lemma StaysShaped(s: State, m: Move)
    requires Shaped(s) && Enabled(s, m)
    ensures Shaped(Apply(s, m))
  {
  }

  lemma {:induction false} Join(s: State, first: seq<Move>, u: State, second: seq<Move>, t: State)
    requires Shaped(s) && Runs(s, first, u) && Shaped(u) && Runs(u, second, t)
    ensures Runs(s, first + second, t)
    decreases |first|
  {
    hide Apply, Enabled, Shaped;
    if first == [] {
      assert first + second == second;
    } else {
      StaysShaped(s, first[0]);
      Join(Apply(s, first[0]), first[1..], u, second, t);
      assert (first + second)[1..] == first[1..] + second;
    }
  }

  lemma Prepend(s: State, m: Move, rest: seq<Move>, t: State)
    requires Shaped(s) && Enabled(s, m) && Shaped(Apply(s, m)) && Runs(Apply(s, m), rest, t)
    ensures Runs(s, [m] + rest, t)
  {
    hide Apply, Enabled, Shaped;
    assert ([m] + rest)[1..] == rest;
  }
}

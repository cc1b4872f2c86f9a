/** That the sliding-window log grants whatever it may: without refunds it counts exactly what the history has
    inside the window, and it is paused exactly while a pause that was set has not run out or been lifted. */
module SlidingExact {
  import opened Common
  import opened SlidingLog
  import opened SlidingRuns

  /** After every instant some window can still reach back to, the log counts just what the history does. */
  ghost predicate Matches(cfg: Config, r: Run) {
    forall t: int | t + cfg.window >= r.clock :: Since(r.log.grants, t) == Since(r.history, t)
  }

  predicate NoRefunds(events: seq<Event>) {
    forall i | 0 <= i < |events| :: !events[i].Refund?
  }

  lemma LookedMatches(cfg: Config, r: Run, now: nat)
    requires Matches(cfg, r) && r.clock <= now < U64_MAX
    ensures Matches(cfg, Looked(cfg, r, now))
  {
    hide Since, Pruned, Units;
    forall t: int | t + cfg.window >= now ensures Since(Looked(cfg, r, now).log.grants, t) == Since(r.history, t) {
      PrunedSince(cfg, r.log.grants, now, t);
      assert Since(r.log.grants, t) == Since(r.history, t);
    }
  }

  lemma RecordedMatches(cfg: Config, r: Run, cost: nat, s: Run)
    requires Matches(cfg, r) && NotAfter(r.log.grants, r.clock) && s.clock == r.clock
    requires s.log.grants == Stamped(r.log.grants, r.clock, cost) && s.history == r.history + [Grant(r.clock, cost)]
    ensures Matches(cfg, s)
  {
    hide Since;
    forall t: int | t + cfg.window >= s.clock ensures Since(s.log.grants, t) == Since(s.history, t) {
      assert Since(r.log.grants, t) == Since(r.history, t);
      SinceAppend(r.log.grants, Grant(r.clock, cost), t);
      SinceAppend(r.history, Grant(r.clock, cost), t);
    }
  }

  lemma StepMatches(cfg: Config, r: Run, e: Event)
    requires Shaped(r) && Matches(cfg, r) && Proper(cfg, r, e) && !e.Refund?
    ensures Matches(cfg, Apply(cfg, r, e))
  {
    hide Since, Sorted, Units, Pruned, Safe;
    var s := Apply(cfg, r, e);
    match e
    case Acquire(now, cost) =>
      if Looks(cfg, r, now, cost) {
        LookedMatches(cfg, r, now);
        PrunedFacts(cfg, r.log.grants, now, r.clock);
        PrunedIsLive(cfg, r.log.grants, now);
        if Decide(cfg, r.log, now, cost) == Acquired { RecordedMatches(cfg, Looked(cfg, r, now), cost, s); }
      }
    case Peek(now, cost) =>
      if Looks(cfg, r, now, cost) { LookedMatches(cfg, r, now); }
    case Charge(now, cost) =>
      if cost > 0 {
        LookedMatches(cfg, r, now);
        PrunedFacts(cfg, r.log.grants, now, r.clock);
        RecordedMatches(cfg, Looked(cfg, r, now), cost, s);
      }
    case Pause(_, _) =>
    case Resume =>
  }

  lemma {:induction false} ReachMatches(cfg: Config, r: Run, events: seq<Event>, s: Run)
    requires Inv(cfg, r) && Matches(cfg, r) && Reaches(cfg, r, events, s) && NoRefunds(events)
    ensures Inv(cfg, s) && Matches(cfg, s)
    decreases |events|
  {
    hide Matches, Dominates, Bounded, Apply, Proper, Sorted, Units;
    if events != [] {
      StepKeeps(cfg, r, events[0]);
      StepMatches(cfg, r, events[0]);
      ReachMatches(cfg, Apply(cfg, r, events[0]), events[1..], s);
    }
  }

  /** Over every run without refunds, a request is granted if and only if it asks for nothing, or the limiter is
      not paused and the units granted and charged inside the window leave room for it. */
  lemma GrantedIffRoom(cfg: Config, events: seq<Event>, r: Run, now: nat, cost: nat)
    requires Reaches(cfg, Fresh(), events, r) && NoRefunds(events) && r.clock <= now < U64_MAX
    ensures WellFormed(r.log) && (Decide(cfg, r.log, now, cost) == Impossible <==> cost > cfg.limit)
    ensures Decide(cfg, r.log, now, cost) == Acquired
       <==> cost <= cfg.limit && (cost == 0 || (r.log.holdUntil <= now && LiveUnits(cfg, r.history, now) + cost <= cfg.limit))
  {
    assert Inv(cfg, Fresh()) && Matches(cfg, Fresh());
    ReachMatches(cfg, Fresh(), events, r);
    hide Reaches, Since, LiveUnits, Dominates, Bounded, Sorted;
    LiveIsSince(cfg, r.log.grants, now);
    LiveIsSince(cfg, r.history, now);
    assert Since(r.log.grants, now - cfg.window) == Since(r.history, now - cfg.window);
  }

  // --- Pauses ---------------------------------------------------------------------------------------------

  /** When a pause ends. */
  function PauseEnd(e: Event): nat
    requires e.Pause?
  {
    Max(1, SatAdd(e.now, Min(e.span, U64_MAX)))
  }

  /** Pause `i` was set, ends after `t`, and was not lifted. */
  predicate Stands(events: seq<Event>, i: nat, t: nat) {
    && i < |events| && events[i].Pause? && events[i].span > 0 && PauseEnd(events[i]) > t
    && forall j | i < j < |events| :: !events[j].Resume?
  }

  ghost predicate SomeStands(events: seq<Event>, t: nat) {
    exists i: nat :: Stands(events, i, t)
  }

  predicate NeverLifted(events: seq<Event>) {
    forall j | 0 <= j < |events| :: !events[j].Resume?
  }

  lemma {:induction false} HoldIs(cfg: Config, r: Run, events: seq<Event>, s: Run, t: nat)
    requires Reaches(cfg, r, events, s)
    ensures s.log.holdUntil > t <==> SomeStands(events, t) || (NeverLifted(events) && r.log.holdUntil > t)
    decreases |events|
  {
    hide Safe, Sorted, Units, Decide, After, Pruned;
    if events != [] {
      var e, rest := events[0], events[1..];
      HoldIs(cfg, Apply(cfg, r, e), rest, s, t);
      HoldStep(cfg, r, e, t);
      hide Apply, Reaches;
      StandsLater(events, t);
    }
  }

  lemma HoldStep(cfg: Config, r: Run, e: Event, t: nat)
    requires WellFormed(r.log) && Proper(cfg, r, e)
    ensures Apply(cfg, r, e).log.holdUntil > t
       <==> (!e.Resume? && r.log.holdUntil > t) || (e.Pause? && e.span > 0 && PauseEnd(e) > t)
  {
  }

  lemma StandsLater(events: seq<Event>, t: nat)
    requires events != []
    ensures SomeStands(events, t)
       <==> SomeStands(events[1..], t) || (events[0].Pause? && events[0].span > 0 && PauseEnd(events[0]) > t && NeverLifted(events[1..]))
    ensures NeverLifted(events) <==> !events[0].Resume? && NeverLifted(events[1..])
  {
    var rest := events[1..];
    if i: nat :| Stands(events, i, t) {
      if i > 0 {
        assert Stands(rest, i - 1, t) by { forall j | i - 1 < j < |rest| ensures !rest[j].Resume? { assert rest[j] == events[j + 1]; } }
      } else {
        forall j | 0 <= j < |rest| ensures !rest[j].Resume? { assert rest[j] == events[j + 1]; }
      }
    }
    if i: nat :| Stands(rest, i, t) {
      assert Stands(events, i + 1, t) by { forall j | i + 1 < j < |events| ensures !events[j].Resume? { assert events[j] == rest[j - 1]; } }
    }
    if events[0].Pause? && events[0].span > 0 && PauseEnd(events[0]) > t && NeverLifted(rest) {
      assert Stands(events, 0, t) by { forall j | 0 < j < |events| ensures !events[j].Resume? { assert events[j] == rest[j - 1]; } }
    }
    if NeverLifted(events) {
      forall j | 0 <= j < |rest| ensures !rest[j].Resume? { assert rest[j] == events[j + 1]; }
    }
    if !events[0].Resume? && NeverLifted(rest) {
      forall j | 0 <= j < |events| ensures !events[j].Resume? { if j > 0 { assert events[j] == rest[j - 1]; } }
    }
  }

  /** Over every run, a request within the limit is refused for a pause exactly while some pause stands that was set
      and neither ran out nor was lifted, and is told to come back when the last of them ends. */
  lemma PausedIffSomePauseStands(cfg: Config, events: seq<Event>, r: Run, now: nat, cost: nat)
    requires Reaches(cfg, Fresh(), events, r) && 0 < cost <= cfg.limit
    ensures r.log.holdUntil > now <==> SomeStands(events, now)
    ensures WellFormed(r.log)
    ensures SomeStands(events, now) ==>
              && Decide(cfg, r.log, now, cost).Retry?
              && var end := now + Decide(cfg, r.log, now, cost).after;
                 end > now && !SomeStands(events, end) && SomeStands(events, end - 1)
  {
    assert Inv(cfg, Fresh());
    ReachKeeps(cfg, Fresh(), events, r);
    HoldIs(cfg, Fresh(), events, r, now);
    if SomeStands(events, now) {
      HoldIs(cfg, Fresh(), events, r, r.log.holdUntil);
      HoldIs(cfg, Fresh(), events, r, r.log.holdUntil - 1);
    }
    hide Reaches, SomeStands, Dominates, Bounded;
  }
}

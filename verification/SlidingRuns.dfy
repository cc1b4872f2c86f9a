/** Whole runs of the sliding-window log against the history of what was really granted. The log gives
    refunded units back from its oldest grants, because it cannot tell which grant a refund is for; the
    history removes them from the right one. */
module SlidingRuns {
  import opened Common
  import opened SlidingLog

  datatype Event =
    | Acquire(now: nat, cost: nat)
    | Peek(now: nat, cost: nat)
    | Charge(now: nat, cost: nat)
    | Refund(now: nat, grant: nat, cost: nat)     // at `now`, `cost` units of history entry `grant` go back
    | Pause(now: nat, span: nat)
    | Resume

  /** The log, every grant and charge ever made (less what was refunded of it), the charges alone, and
      the instant of the last operation. */
  datatype Run = Run(log: Log, history: seq<Grant>, charges: seq<Grant>, clock: nat)

  function Reading(e: Event, clock: nat): nat {
    match e
    case Acquire(now, _) => now
    case Peek(now, _) => now
    case Charge(now, _) => now
    case Refund(now, _, _) => now
    case Pause(now, _) => now
    case Resume => clock
  }

  /** Instants do not go back and stay off the end of their range, and a refund is of units still out,
      when it is safe. */
  predicate Proper(cfg: Config, r: Run, e: Event) {
    && r.clock <= Reading(e, r.clock) < U64_MAX
    && (e.Refund? ==>
        e.grant < |r.history| && e.cost <= r.history[e.grant].count && Safe(cfg, r, e.now, e.grant, e.cost))
  }

  /** The grant has not left the window, or the log, after giving the units up, still has as many as the
      history has inside the window. */
  predicate Safe(cfg: Config, r: Run, now: nat, i: nat, cost: nat)
    requires i < |r.history|
  {
    r.history[i].at + cfg.window > now || Monus(Units(r.log.grants), cost) >= LiveUnits(cfg, r.history, now)
  }

  /** An evaluation looks at the window, and so prunes, when it gets past the early answers. */
  predicate Looks(cfg: Config, r: Run, now: nat, cost: nat) {
    0 < cost <= cfg.limit && r.log.holdUntil <= now
  }

  function Apply(cfg: Config, r: Run, e: Event): Run
    requires WellFormed(r.log) && (e.Refund? ==> e.grant < |r.history|)
  {
    match e
    case Acquire(now, cost) =>
      var s := r.(log := After(cfg, r.log, now, cost, true), clock := now);
      if cost > 0 && Decide(cfg, r.log, now, cost) == Acquired then s.(history := r.history + [Grant(now, cost)]) else s
    case Peek(now, cost) => r.(log := After(cfg, r.log, now, cost, false), clock := now)
    case Charge(now, cost) =>
      if cost == 0 then r.(clock := now)
      else
        var gs := Stamped(Pruned(cfg, r.log.grants, now), now, cost);
        Run(r.log.(grants := gs, used := Units(gs)), r.history + [Grant(now, cost)], r.charges + [Grant(now, cost)], now)
    case Refund(now, i, cost) =>
      var gs := Refunded(r.log.grants, cost);
      Run(r.log.(grants := gs, used := Units(gs)), Returned(r.history, i, cost), r.charges, now)
    case Pause(now, span) =>
      r.(clock := now,
         log := r.log.(holdUntil := if span == 0 then r.log.holdUntil
                                    else Max(r.log.holdUntil, Max(1, SatAdd(now, Min(span, U64_MAX))))))
    case Resume => r.(log := r.log.(holdUntil := 0))
  }

  /** The right grant loses the units. */
  function Returned(history: seq<Grant>, i: nat, cost: nat): seq<Grant>
    requires i < |history|
  {
    history[i := history[i].(count := Monus(history[i].count, cost))]
  }

  ghost predicate Reaches(cfg: Config, r: Run, events: seq<Event>, s: Run)
    decreases |events|
  {
    if events == [] then r == s
    else WellFormed(r.log) && Proper(cfg, r, events[0]) && Reaches(cfg, Apply(cfg, r, events[0]), events[1..], s)
  }

  function Fresh(): Run {
    Run(Log([], 0, 0), [], [], 0)
  }

  // --- Units granted after an instant, and inside a window --------------------------------------------

  function Since(gs: seq<Grant>, t: int): nat {
    if gs == [] then 0 else Since(gs[..|gs| - 1], t) + if gs[|gs| - 1].at > t then gs[|gs| - 1].count else 0
  }

  /** Units granted after `t` and no later than `t + window`. */
  function Within(gs: seq<Grant>, t: int, window: nat): int {
    Since(gs, t) - Since(gs, t + window)
  }

  lemma SinceAppend(gs: seq<Grant>, g: Grant, t: int)
    ensures Since(gs + [g], t) == Since(gs, t) + if g.at > t then g.count else 0
  {
    assert (gs + [g])[..|gs|] == gs;
  }

  lemma {:induction false} SinceMonotone(gs: seq<Grant>, t: int, u: int)
    requires t <= u
    ensures Since(gs, u) <= Since(gs, t)
  {
    if gs != [] { SinceMonotone(gs[..|gs| - 1], t, u); }
  }

  lemma {:induction false} SinceUpdate(gs: seq<Grant>, i: nat, count: nat, t: int)
    requires i < |gs|
    ensures Since(gs[i := gs[i].(count := count)], t)
         == Since(gs, t) + if gs[i].at > t then count - gs[i].count else 0
  {
    var n := |gs| - 1;
    if i < n {
      SinceUpdate(gs[..n], i, count, t);
      assert gs[i := gs[i].(count := count)][..n] == gs[..n][i := gs[i].(count := count)];
    } else {
      assert gs[i := gs[i].(count := count)][..n] == gs[..n];
    }
  }

  lemma {:induction false} SinceFront(gs: seq<Grant>, t: int)
    requires gs != []
    ensures Since(gs, t) == Since(gs[1..], t) + if gs[0].at > t then gs[0].count else 0
  {
    var n := |gs| - 1;
    if n > 0 {
      SinceFront(gs[..n], t);
      assert gs[..n][1..] == gs[1..][..n - 1];
    }
  }

  /** Off the end of the clock's range, what counts is what was granted less than a window ago. */
  lemma {:induction false} LiveIsSince(cfg: Config, gs: seq<Grant>, now: nat)
    requires now < U64_MAX
    ensures LiveUnits(cfg, gs, now) == Since(gs, now - cfg.window)
  {
    if gs != [] {
      SinceFront(gs, now - cfg.window);
      LiveIsSince(cfg, gs[1..], now);
    }
  }

  lemma {:induction false} NoneSince(gs: seq<Grant>, t: int)
    requires forall i | 0 <= i < |gs| :: gs[i].at <= t
    ensures Since(gs, t) == 0
  {
    if gs != [] { NoneSince(gs[..|gs| - 1], t); }
  }

  lemma {:induction false} AllSince(gs: seq<Grant>, t: int)
    ensures Since(gs, t) <= Units(gs)
    ensures (forall i | 0 <= i < |gs| :: gs[i].at > t) ==> Since(gs, t) == Units(gs)
  {
    if gs != [] {
      SinceFront(gs, t);
      AllSince(gs[1..], t);
    }
  }

  /** Pruning at `now` removes only what every window still to come has left behind. */
  lemma {:induction false} PrunedSince(cfg: Config, gs: seq<Grant>, now: nat, t: int)
    requires now < U64_MAX && t + cfg.window >= now
    ensures Since(Pruned(cfg, gs, now), t) == Since(gs, t)
  {
    if gs != [] && Expired(cfg, gs[0], now) {
      SinceFront(gs, t);
      PrunedSince(cfg, gs[1..], now, t);
    }
  }

  predicate NotAfter(gs: seq<Grant>, clock: nat) {
    forall i | 0 <= i < |gs| :: gs[i].at <= clock
  }

  lemma {:induction false} RefundedShape(gs: seq<Grant>, cost: nat, clock: nat)
    requires Sorted(gs) && NotAfter(gs, clock)
    ensures Sorted(Refunded(gs, cost)) && NotAfter(Refunded(gs, cost), clock)
    ensures Units(Refunded(gs, cost)) == Monus(Units(gs), cost)
  {
    if gs != [] && cost > 0 {
      if gs[0].count > cost {
        assert ([gs[0].(count := gs[0].count - cost)] + gs[1..])[1..] == gs[1..];
      } else {
        RefundedShape(gs[1..], cost - gs[0].count, clock);
      }
    }
  }

  /** Taking the oldest units back leaves as much as possible: after any instant, the log still has
      everything it had there, or everything it has at all. */
  lemma {:induction false} RefundedSince(gs: seq<Grant>, cost: nat, t: int)
    requires Sorted(gs)
    ensures Since(Refunded(gs, cost), t) == Min(Since(gs, t), Monus(Units(gs), cost))
  {
    if gs == [] || cost == 0 {
      AllSince(gs, t);
    } else if gs[0].count > cost {
      PartRefunded(gs, cost, t);
    } else {
      RefundedSince(gs[1..], cost - gs[0].count, t);
      OldestRefunded(gs, cost, t);
      hide Sorted, Since, Units;
    }
  }

  lemma OldestRefunded(gs: seq<Grant>, cost: nat, t: int)
    requires Sorted(gs) && gs != [] && gs[0].count <= cost
    ensures Min(Since(gs[1..], t), Monus(Units(gs[1..]), cost - gs[0].count)) == Min(Since(gs, t), Monus(Units(gs), cost))
  {
    SinceFront(gs, t);
    AllSince(gs[1..], t);
    assert gs[0].at > t ==> Since(gs[1..], t) == Units(gs[1..]);
    hide Since, Sorted;
  }

  lemma PartRefunded(gs: seq<Grant>, cost: nat, t: int)
    requires Sorted(gs) && gs != [] && gs[0].count > cost > 0
    ensures Since(Refunded(gs, cost), t) == Min(Since(gs, t), Units(gs) - cost)
  {
    var kept := [gs[0].(count := gs[0].count - cost)] + gs[1..];
    assert kept[1..] == gs[1..];
    SinceFront(kept, t);
    SinceFront(gs, t);
    AllSince(gs[1..], t);
  }

  // --- The log dominates the history -------------------------------------------------------------------

  /** After every instant some window can still reach back to, the log counts at least what the history
      does. */
  ghost predicate Dominates(cfg: Config, r: Run) {
    forall t: int | t + cfg.window >= r.clock :: Since(r.log.grants, t) >= Since(r.history, t)
  }

  /** No window holds more net units than the limit plus what was charged inside it. */
  ghost predicate Bounded(cfg: Config, r: Run) {
    forall t: int :: Within(r.history, t, cfg.window) <= cfg.limit + Within(r.charges, t, cfg.window)
  }

  predicate Shaped(r: Run) {
    WellFormed(r.log) && NotAfter(r.log.grants, r.clock) && NotAfter(r.history, r.clock) && NotAfter(r.charges, r.clock)
  }

  ghost predicate Inv(cfg: Config, r: Run) {
    Shaped(r) && Dominates(cfg, r) && Bounded(cfg, r)
  }

  lemma {:induction false} PrunedFacts(cfg: Config, gs: seq<Grant>, now: nat, clock: nat)
    requires Sorted(gs) && NotAfter(gs, clock)
    ensures Sorted(Pruned(cfg, gs, now)) && NotAfter(Pruned(cfg, gs, now), clock)
  {
    if gs != [] && Expired(cfg, gs[0], now) { PrunedFacts(cfg, gs[1..], now, clock); }
  }

  /** Later there are fewer windows to answer for. */
  lemma LaterKeeps(cfg: Config, r: Run, s: Run)
    requires Inv(cfg, r) && r.clock <= s.clock
    requires s.log.grants == r.log.grants && s.log.used == r.log.used && s.history == r.history && s.charges == r.charges
    ensures Inv(cfg, s)
  {
    hide Since, Within, Sorted, Units;
  }

  /** Pruning keeps the domination, from the new instant on. */
  lemma PruneKeeps(cfg: Config, r: Run, now: nat, s: Run)
    requires Inv(cfg, r) && r.clock <= now < U64_MAX
    requires s.log == r.log.(grants := Pruned(cfg, r.log.grants, now), used := Units(Pruned(cfg, r.log.grants, now)))
    requires s.history == r.history && s.charges == r.charges && s.clock == now
    ensures Inv(cfg, s)
  {
    hide Since, Within, Sorted, Units, Pruned;
    PrunedFacts(cfg, r.log.grants, now, r.clock);
    forall t: int | t + cfg.window >= now ensures Since(s.log.grants, t) >= Since(s.history, t) {
      PrunedSince(cfg, r.log.grants, now, t);
    }
  }

  /** A window holding the newest grant lies inside what the log counts. */
  lemma RecordBounded(cfg: Config, r: Run, cost: nat, t: int)
    requires Inv(cfg, r) && Units(r.log.grants) + cost <= cfg.limit
    ensures Within(r.history + [Grant(r.clock, cost)], t, cfg.window) <= cfg.limit + Within(r.charges, t, cfg.window)
  {
    hide Since, Sorted, Units;
    var g := Grant(r.clock, cost);
    assert Within(r.history, t, cfg.window) <= cfg.limit + Within(r.charges, t, cfg.window);
    SinceAppend(r.history, g, t);
    SinceAppend(r.history, g, t + cfg.window);
    if t < r.clock <= t + cfg.window {
      assert Since(r.log.grants, t) >= Since(r.history, t);
      AllSince(r.log.grants, t);
      SinceMonotone(r.charges, t, t + cfg.window);
    }
  }

  lemma ChargeBounded(cfg: Config, r: Run, cost: nat, t: int)
    requires Inv(cfg, r)
    ensures Within(r.history + [Grant(r.clock, cost)], t, cfg.window)
         <= cfg.limit + Within(r.charges + [Grant(r.clock, cost)], t, cfg.window)
  {
    hide Since, Sorted, Units;
    var g := Grant(r.clock, cost);
    assert Within(r.history, t, cfg.window) <= cfg.limit + Within(r.charges, t, cfg.window);
    SinceAppend(r.history, g, t);
    SinceAppend(r.history, g, t + cfg.window);
    SinceAppend(r.charges, g, t);
    SinceAppend(r.charges, g, t + cfg.window);
  }

  /** Recording units at the last instant, in the log and in the history. */
  lemma RecordKeeps(cfg: Config, r: Run, cost: nat, charged: bool, s: Run)
    requires Inv(cfg, r)
    requires !charged ==> Units(r.log.grants) + cost <= cfg.limit
    requires s.log.grants == Stamped(r.log.grants, r.clock, cost) && s.log.used == Units(r.log.grants) + cost
    requires s.history == r.history + [Grant(r.clock, cost)]
    requires s.charges == if charged then r.charges + [Grant(r.clock, cost)] else r.charges
    requires s.clock == r.clock
    ensures Inv(cfg, s)
  {
    hide Since, Within, Units;
    var g := Grant(r.clock, cost);
    assert s.log.grants == r.log.grants + [g];
    StampedUnits(r.log.grants, r.clock, cost);
    hide Sorted;
    assert Dominates(cfg, s) by {
      forall t: int | t + cfg.window >= s.clock ensures Since(s.log.grants, t) >= Since(s.history, t) {
        assert Since(r.log.grants, t) >= Since(r.history, t);
        SinceAppend(r.log.grants, g, t);
        SinceAppend(r.history, g, t);
      }
    }
    assert Bounded(cfg, s) by {
      forall t: int ensures Within(s.history, t, cfg.window) <= cfg.limit + Within(s.charges, t, cfg.window) {
        if charged { ChargeBounded(cfg, r, cost, t); } else { RecordBounded(cfg, r, cost, t); }
      }
    }
  }

  /** What the log and the history have after an instant once units of a grant went back. */
  lemma RefundSince(cfg: Config, r: Run, i: nat, cost: nat, t: int)
    requires Inv(cfg, r) && i < |r.history| && cost <= r.history[i].count && t + cfg.window >= r.clock
    ensures Since(Returned(r.history, i, cost), t)
         == Since(r.history, t) - if r.history[i].at > t then cost else 0
    ensures Since(Refunded(r.log.grants, cost), t) == Min(Since(r.log.grants, t), Monus(Units(r.log.grants), cost))
    ensures Units(r.log.grants) >= Since(r.log.grants, t) >= Since(r.history, t)
  {
    hide Since, Units, Refunded;
    SinceUpdate(r.history, i, r.history[i].count - cost, t);
    RefundedSince(r.log.grants, cost, t);
    AllSince(r.log.grants, t);
    assert Since(r.log.grants, t) >= Since(r.history, t);
  }

  /** A refund that is safe at an instant leaves the log, after every instant a later window reaches back
      to, at or above the history with the right grant removed. */
  lemma RefundDominates(cfg: Config, r: Run, now: nat, i: nat, cost: nat, t: int)
    requires Inv(cfg, r) && Proper(cfg, r, Refund(now, i, cost)) && t + cfg.window >= now
    ensures var s := Apply(cfg, r, Refund(now, i, cost)); Since(s.log.grants, t) >= Since(s.history, t)
  {
    hide Since, Units, Refunded, Dominates, Bounded, Sorted, NotAfter, LiveUnits;
    var edge := now - cfg.window;
    LiveIsSince(cfg, r.history, now);
    RefundSince(cfg, r, i, cost, edge);
    RefundSince(cfg, r, i, cost, t);
    SinceMonotone(Returned(r.history, i, cost), edge, t);
  }

  lemma RefundBounded(cfg: Config, r: Run, i: nat, cost: nat, t: int)
    requires Inv(cfg, r) && i < |r.history| && cost <= r.history[i].count
    ensures Within(Returned(r.history, i, cost), t, cfg.window) <= cfg.limit + Within(r.charges, t, cfg.window)
  {
    hide Since, Sorted, Units;
    assert Within(r.history, t, cfg.window) <= cfg.limit + Within(r.charges, t, cfg.window);
    SinceUpdate(r.history, i, r.history[i].count - cost, t);
    SinceUpdate(r.history, i, r.history[i].count - cost, t + cfg.window);
  }

  lemma RefundShaped(cfg: Config, r: Run, now: nat, i: nat, cost: nat)
    requires Shaped(r) && r.clock <= now && i < |r.history|
    ensures Shaped(Apply(cfg, r, Refund(now, i, cost)))
  {
    hide Units, Refunded, Sorted;
    RefundedShape(r.log.grants, cost, r.clock);
  }

  /** A safe refund: the log gives up as many units as the history, and the oldest it has. */
  lemma RefundKeeps(cfg: Config, r: Run, now: nat, i: nat, cost: nat)
    requires Inv(cfg, r) && Proper(cfg, r, Refund(now, i, cost))
    ensures Inv(cfg, Apply(cfg, r, Refund(now, i, cost)))
  {
    hide Since, Within, Units, Refunded, Sorted;
    var s := Apply(cfg, r, Refund(now, i, cost));
    RefundShaped(cfg, r, now, i, cost);
    hide Shaped, Safe, WellFormed;
    assert Dominates(cfg, s) by {
      forall t: int | t + cfg.window >= s.clock ensures Since(s.log.grants, t) >= Since(s.history, t) {
        RefundDominates(cfg, r, now, i, cost, t);
      }
    }
    assert Bounded(cfg, s) by {
      forall t: int ensures Within(s.history, t, cfg.window) <= cfg.limit + Within(s.charges, t, cfg.window) {
        RefundBounded(cfg, r, i, cost, t);
      }
    }
  }

  /** The run after pruning at `now`. */
  function Looked(cfg: Config, r: Run, now: nat): Run {
    var gs := Pruned(cfg, r.log.grants, now);
    r.(log := r.log.(grants := gs, used := Units(gs)), clock := now)
  }

  lemma AcquireKeeps(cfg: Config, r: Run, now: nat, cost: nat)
    requires Inv(cfg, r) && Proper(cfg, r, Acquire(now, cost))
    ensures Inv(cfg, Apply(cfg, r, Acquire(now, cost)))
  {
    hide Dominates, Bounded, Sorted, Pruned, Units, NotAfter;
    var s := Apply(cfg, r, Acquire(now, cost));
    if Looks(cfg, r, now, cost) {
      var p := Looked(cfg, r, now);
      PruneKeeps(cfg, r, now, p);
      PrunedIsLive(cfg, r.log.grants, now);
      if Units(p.log.grants) + cost <= cfg.limit { RecordKeeps(cfg, p, cost, false, s); }
    } else {
      LaterKeeps(cfg, r, s);
    }
  }

  lemma ChargeKeeps(cfg: Config, r: Run, now: nat, cost: nat)
    requires Inv(cfg, r) && Proper(cfg, r, Charge(now, cost))
    ensures Inv(cfg, Apply(cfg, r, Charge(now, cost)))
  {
    hide Dominates, Bounded, Sorted, Pruned, Units;
    var s := Apply(cfg, r, Charge(now, cost));
    if cost == 0 {
      LaterKeeps(cfg, r, s);
    } else {
      var p := Looked(cfg, r, now);
      PruneKeeps(cfg, r, now, p);
      StampedUnits(p.log.grants, now, cost);
      RecordKeeps(cfg, p, cost, true, s);
    }
  }

  lemma StepKeeps(cfg: Config, r: Run, e: Event)
    requires Inv(cfg, r) && Proper(cfg, r, e)
    ensures Inv(cfg, Apply(cfg, r, e))
  {
    hide Dominates, Bounded, Sorted, Units, Pruned, Refunded, Since, Safe;
    match e
    case Acquire(now, cost) => AcquireKeeps(cfg, r, now, cost);
    case Peek(now, cost) =>
      if Looks(cfg, r, now, cost) {
        PruneKeeps(cfg, r, now, Apply(cfg, r, e));
      } else {
        LaterKeeps(cfg, r, Apply(cfg, r, e));
      }
    case Charge(now, cost) => ChargeKeeps(cfg, r, now, cost);
    case Refund(now, i, cost) => RefundKeeps(cfg, r, now, i, cost);
    case Pause(_, _) => LaterKeeps(cfg, r, Apply(cfg, r, e));
    case Resume => LaterKeeps(cfg, r, Apply(cfg, r, e));
  }

  lemma {:induction false} ReachKeeps(cfg: Config, r: Run, events: seq<Event>, s: Run)
    requires Inv(cfg, r) && Reaches(cfg, r, events, s)
    ensures Inv(cfg, s)
    decreases |events|
  {
    if events != [] {
      StepKeeps(cfg, r, events[0]);
      ReachKeeps(cfg, Apply(cfg, r, events[0]), events[1..], s);
    }
  }

  // --- Main results ---------------------------------------------------------------------------------------

  /** Refunding the oldest units is safe over whole runs: at every later reading the log counts at least
      what is inside the window of the history, in which every refund removed the right grant; and in every
      trailing window the net units granted never exceed the limit (plus what was charged there after the
      fact). */
  lemma WindowNeverExceeds(cfg: Config, events: seq<Event>, r: Run, now: nat, t: int)
    requires Reaches(cfg, Fresh(), events, r)
    ensures r.clock <= now < U64_MAX ==> LiveUnits(cfg, r.log.grants, now) >= LiveUnits(cfg, r.history, now)
    ensures Within(r.history, t, cfg.window) <= cfg.limit + Within(r.charges, t, cfg.window)
  {
    assert Inv(cfg, Fresh());
    ReachKeeps(cfg, Fresh(), events, r);
    hide Reaches, Since, LiveUnits;
    if r.clock <= now < U64_MAX {
      LiveIsSince(cfg, r.log.grants, now);
      LiveIsSince(cfg, r.history, now);
      assert Since(r.log.grants, now - cfg.window) >= Since(r.history, now - cfg.window);
    }
  }

  /** At every reading from `now` on, the log counts at least what is inside the window of the history. */
  ghost predicate NeverLaxer(cfg: Config, r: Run, now: nat) {
    forall later: nat | now <= later < U64_MAX ::
      LiveUnits(cfg, r.log.grants, later) >= LiveUnits(cfg, r.history, later)
  }

  /** Exactly when a refund made at `now` leaves the limiter no more permissive, at any later reading,
      than removing the right grant would. */
  lemma RefundSafeIff(cfg: Config, r: Run, now: nat, i: nat, cost: nat)
    requires Inv(cfg, r) && r.clock <= now < U64_MAX && i < |r.history| && cost <= r.history[i].count
    ensures NeverLaxer(cfg, Apply(cfg, r, Refund(now, i, cost)), now) <==> Safe(cfg, r, now, i, cost)
  {
    hide LiveUnits, Since, Units, Refunded, Dominates, Bounded, Sorted, NotAfter;
    var s := Apply(cfg, r, Refund(now, i, cost));
    if Safe(cfg, r, now, i, cost) {
      forall later: nat | now <= later < U64_MAX
        ensures LiveUnits(cfg, s.log.grants, later) >= LiveUnits(cfg, s.history, later)
      {
        RefundDominates(cfg, r, now, i, cost, later - cfg.window);
        LiveIsSince(cfg, s.log.grants, later);
        LiveIsSince(cfg, s.history, later);
      }
    } else {
      UnsafeShows(cfg, r, now, i, cost);
    }
  }

  /** An unsafe refund shows at once. */
  lemma UnsafeShows(cfg: Config, r: Run, now: nat, i: nat, cost: nat)
    requires Inv(cfg, r) && r.clock <= now < U64_MAX && i < |r.history| && cost <= r.history[i].count
    requires !Safe(cfg, r, now, i, cost)
    ensures var s := Apply(cfg, r, Refund(now, i, cost));
            LiveUnits(cfg, s.log.grants, now) < LiveUnits(cfg, s.history, now)
  {
    hide LiveUnits, Since, Units, Refunded, Dominates, Bounded, Sorted, NotAfter;
    var s := Apply(cfg, r, Refund(now, i, cost));
    RefundSince(cfg, r, i, cost, now - cfg.window);
    LiveIsSince(cfg, r.history, now);
    LiveIsSince(cfg, s.history, now);
    LiveIsSince(cfg, s.log.grants, now);
  }

  // --- A refund that is not safe --------------------------------------------------------------------------

  /** One unit per ten ticks, granted at 0 and again at 10. */
  function OneInTen(): Config {
    Config(1, 10)
  }

  function FirstGranted(): Run {
    Run(Log([Grant(0, 1)], 1, 0), [Grant(0, 1)], [], 0)
  }

  function SecondGranted(): Run {
    Run(Log([Grant(10, 1)], 1, 0), [Grant(0, 1), Grant(10, 1)], [], 10)
  }

  lemma OneGrant(at: nat)
    ensures Units([Grant(at, 1)]) == 1 && WellFormed(Log([Grant(at, 1)], 1, 0))
  {
    assert [Grant(at, 1)][1..] == [];
  }

  lemma FirstGrant()
    ensures Apply(OneInTen(), Fresh(), Acquire(0, 1)) == FirstGranted()
    ensures WellFormed(Fresh().log) && Proper(OneInTen(), Fresh(), Acquire(0, 1))
  {
  }

  lemma SecondGrant()
    ensures WellFormed(FirstGranted().log) && Proper(OneInTen(), FirstGranted(), Acquire(10, 1))
    ensures Apply(OneInTen(), FirstGranted(), Acquire(10, 1)) == SecondGranted()
  {
    var gs := [Grant(0, 1)];
    OneGrant(0);
    assert gs[1..] == [];
    assert Pruned(OneInTen(), gs, 10) == [] && LiveUnits(OneInTen(), gs, 10) == 0;
    assert Decide(OneInTen(), FirstGranted().log, 10, 1) == Acquired;
    assert After(OneInTen(), FirstGranted().log, 10, 1, true) == SecondGranted().log;
  }

  lemma BothGranted()
    ensures Reaches(OneInTen(), Fresh(), [Acquire(0, 1), Acquire(10, 1)], SecondGranted())
  {
    hide *;
    FirstGrant();
    SecondGrant();
    NoEvents(OneInTen(), SecondGranted());
    Prepend(OneInTen(), FirstGranted(), Acquire(10, 1), [], SecondGranted());
    Prepend(OneInTen(), Fresh(), Acquire(0, 1), [Acquire(10, 1)] + [], SecondGranted());
    assert [Acquire(0, 1)] + ([Acquire(10, 1)] + []) == [Acquire(0, 1), Acquire(10, 1)];
  }

  lemma NoEvents(cfg: Config, r: Run)
    ensures Reaches(cfg, r, [], r)
  {
  }

  lemma Prepend(cfg: Config, r: Run, e: Event, rest: seq<Event>, s: Run)
    requires WellFormed(r.log) && Proper(cfg, r, e) && Reaches(cfg, Apply(cfg, r, e), rest, s)
    ensures Reaches(cfg, r, [e] + rest, s)
  {
    hide Apply, Proper, WellFormed;
    assert ([e] + rest)[1..] == rest;
  }

  lemma SecondWindow()
    ensures Units(SecondGranted().log.grants) == 1 && LiveUnits(OneInTen(), SecondGranted().history, 10) == 1
    ensures Refunded(SecondGranted().log.grants, 1) == []
    ensures Within(Returned(SecondGranted().history, 0, 1), 5, 10) == 1
  {
    OneGrant(10);
    var h := SecondGranted().history;
    LiveIsSince(OneInTen(), h, 10);
    assert h[..1] == [Grant(0, 1)];
    NoneSince(h[..1], 0);
    assert Returned(h, 0, 1) == [Grant(0, 0)] + [Grant(10, 1)];
    SinceAppend([Grant(0, 0)], Grant(10, 1), 5);
    NoneSince([Grant(0, 0)], 5);
    NoneSince(Returned(h, 0, 1), 15);
  }

  /** The effect on the limit: the grant at 0 is refunded at 10, when it has left the window, and the next
      request is granted although the window already holds its one unit. */
  lemma LateRefundOvershoots()
    ensures Reaches(OneInTen(), Fresh(), [Acquire(0, 1), Acquire(10, 1)], SecondGranted())
    ensures !Safe(OneInTen(), SecondGranted(), 10, 0, 1)
    ensures WellFormed(SecondGranted().log)
    ensures var s := Apply(OneInTen(), SecondGranted(), Refund(10, 0, 1));
            && WellFormed(s.log) && Decide(OneInTen(), s.log, 10, 1) == Acquired
            && Within(s.history, 5, 10) == 1
  {
    BothGranted();
    OneGrant(10);
    SecondWindow();
    hide Reaches, Within, Returned, Refunded;
  }
}

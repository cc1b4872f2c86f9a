/** The exact sliding-window log: every grant is remembered with its time until it leaves the trailing
    window. The class below works on the log in place, as the limiter does under its lock; the
    functions say what each operation makes of the log's value. Times are nanoseconds in a `u64`. */
module SlidingLog {
  import opened Common

  datatype Grant = Grant(at: nat, count: nat)

  datatype Config = Config(limit: nat, window: nat)

  datatype Decision = Acquired | Retry(after: nat) | Impossible

  datatype Log = Log(grants: seq<Grant>, used: nat, holdUntil: nat)

  // --- What the operations mean ------------------------------------------------------------------

  /** The first instant the grant no longer counts, saturating. */
  function ReadyAt(cfg: Config, g: Grant): nat {
    SatAdd(g.at, cfg.window)
  }

  predicate Expired(cfg: Config, g: Grant, now: nat) {
    ReadyAt(cfg, g) <= now
  }

  function Units(gs: seq<Grant>): nat {
    if gs == [] then 0 else gs[0].count + Units(gs[1..])
  }

  /** Units of the grants still inside the window, wherever they are in the log. */
  function LiveUnits(cfg: Config, gs: seq<Grant>, now: nat): nat {
    if gs == [] then 0
    else (if Expired(cfg, gs[0], now) then 0 else gs[0].count) + LiveUnits(cfg, gs[1..], now)
  }

  predicate Sorted(gs: seq<Grant>) {
    forall i, j | 0 <= i < j < |gs| :: gs[i].at <= gs[j].at
  }

  predicate WellFormed(log: Log) {
    Sorted(log.grants) && log.used == Units(log.grants)
  }

  function Pruned(cfg: Config, gs: seq<Grant>, now: nat): seq<Grant> {
    if gs == [] || !Expired(cfg, gs[0], now) then gs else Pruned(cfg, gs[1..], now)
  }

  function Refunded(gs: seq<Grant>, cost: nat): seq<Grant> {
    if gs == [] || cost == 0 then gs
    else if gs[0].count > cost then [gs[0].(count := gs[0].count - cost)] + gs[1..]
    else Refunded(gs[1..], cost - gs[0].count)
  }

  function Stamped(gs: seq<Grant>, now: nat, cost: nat): seq<Grant> {
    gs + [Grant(if gs == [] then now else Max(now, gs[|gs| - 1].at), cost)]
  }

  /** When the oldest grants will have freed `needed` units. */
  function FreedAt(cfg: Config, gs: seq<Grant>, needed: nat): nat
    requires 0 < needed <= Units(gs)
  {
    if gs[0].count >= needed then ReadyAt(cfg, gs[0]) else FreedAt(cfg, gs[1..], needed - gs[0].count)
  }

  // --- The limiter ---------------------------------------------------------------------------------

  class SlidingWindowLog {
    const limit: nat
    const windowNs: nat
    var grants: seq<Grant>
    var used: nat
    var holdUntilNs: nat

    constructor (limit: nat, window: nat)
      ensures State() == Log([], 0, 0) && Cfg() == Config(limit, Max(1, Min(window, U64_MAX)))
    {
      this.limit := limit;
      this.windowNs := Max(1, Min(window, U64_MAX));
      grants, used, holdUntilNs := [], 0, 0;
    }

    function Cfg(): Config {
      Config(limit, windowNs)
    }

    function State(): Log
      reads this
    {
      Log(grants, used, holdUntilNs)
    }

    predicate Valid()
      reads this
    {
      WellFormed(State())
    }

    method Prune(now: nat)
      requires Valid()
      modifies this`grants, this`used
      ensures Valid() && grants == Pruned(Cfg(), old(grants), now)
    {
      while grants != [] && Expired(Cfg(), grants[0], now)
        invariant Valid() && Pruned(Cfg(), grants, now) == Pruned(Cfg(), old(grants), now)
        decreases |grants|
      {
        used := Monus(used, grants[0].count);
        grants := grants[1..];
      }
    }

    /** How long the log, left alone, takes to give `needed` units free. */
    method WaitFor(now: nat, needed: nat) returns (after: nat)
      requires Valid() && 0 < needed <= used
      ensures after == Monus(FreedAt(Cfg(), grants, needed), now)
    {
      var freed := 0;
      ghost var rest := grants;
      for i := 0 to |grants|
        invariant freed < needed && rest == grants[i..] && Units(rest) == used - freed
        invariant FreedAt(Cfg(), grants, needed) == FreedAt(Cfg(), rest, needed - freed)
      {
        freed := freed + grants[i].count;
        if freed >= needed {
          return Monus(ReadyAt(Cfg(), grants[i]), now);
        }
        rest := rest[1..];
      }
      // The whole log frees `used`, which is enough.
      assert false;
    }

    /** Decides a request, and with `record` set lets a granted one into the log. */
    method Evaluate(now: nat, cost: nat, record: bool) returns (d: Decision)
      requires Valid()
      modifies this`grants, this`used
      ensures Valid()
      ensures d == Decide(Cfg(), old(State()), now, cost)
      ensures State() == After(Cfg(), old(State()), now, cost, record)
    {
      if cost > limit {
        return Impossible;
      }
      if cost == 0 {
        return Acquired;
      }
      var held := Monus(holdUntilNs, now);
      if held > 0 {
        return Retry(held);
      }
      Prune(now);
      PrunedIsLive(Cfg(), old(grants), now);
      var wanted := used + cost;
      if wanted <= limit {
        if record {
          StampedUnits(grants, now, cost);
          grants, used := Stamped(grants, now, cost), wanted;
        }
        return Acquired;
      }
      var after := WaitFor(now, wanted - limit);
      return Retry(after);
    }

    method Available(now: nat) returns (n: nat)
      requires Valid()
      modifies this`grants, this`used
      ensures Valid() && n == if holdUntilNs > now then 0 else Monus(limit, LiveUnits(Cfg(), old(grants), now))
      ensures grants == if holdUntilNs > now then old(grants) else Pruned(Cfg(), old(grants), now)
    {
      if holdUntilNs > now {
        return 0;
      }
      Prune(now);
      PrunedIsLive(Cfg(), old(grants), now);
      n := Monus(limit, used);
    }

    method Refund(cost: nat)
      requires Valid()
      modifies this`grants, this`used
      ensures Valid() && grants == Refunded(old(grants), cost)
    {
      var remaining: nat := cost;
      while remaining > 0 && grants != []
        invariant Valid() && Refunded(grants, remaining) == Refunded(old(grants), cost)
        decreases |grants|, remaining
      {
        var front := grants[0];
        var take := Min(front.count, remaining);
        var rest := grants[1..];
        remaining := remaining - take;
        if front.count == take {
          grants := rest;
        } else {
          grants := [front.(count := front.count - take)] + rest;
          assert grants[1..] == rest;
        }
        used := Monus(used, take);
      }
    }

    /** Enters units that are gone downstream; neither the limit nor a pause can refuse them. */
    method ChargeSpent(now: nat, cost: nat)
      requires Valid()
      modifies this`grants, this`used
      ensures Valid()
      ensures grants == if cost == 0 then old(grants) else Stamped(Pruned(Cfg(), old(grants), now), now, cost)
    {
      if cost == 0 {
        return;
      }
      Prune(now);
      StampedUnits(grants, now, cost);
      grants, used := Stamped(grants, now, cost), used + cost;
    }

    method PauseFor(now: nat, span: nat)
      requires Valid()
      modifies this`holdUntilNs
      ensures Valid()
      ensures holdUntilNs == if span == 0 then old(holdUntilNs)
                             else Max(old(holdUntilNs), Max(1, SatAdd(now, Min(span, U64_MAX))))
    {
      if span > 0 {
        holdUntilNs := Max(holdUntilNs, Max(1, SatAdd(now, Min(span, U64_MAX))));
      }
    }

    method Resume() returns (was: bool)
      requires Valid()
      modifies this`holdUntilNs
      ensures Valid() && holdUntilNs == 0 && was == (old(holdUntilNs) != 0)
    {
      was := holdUntilNs != 0;
      holdUntilNs := 0;
    }
  }

  /** Granted exactly when not paused and the units inside the window leave room; otherwise the wait is
      until the pause ends, or until the oldest grants have freed what is missing. */
  function Decide(cfg: Config, log: Log, now: nat, cost: nat): Decision
    requires WellFormed(log)
  {
    if cost > cfg.limit then Impossible
    else if cost == 0 then Acquired
    else if log.holdUntil > now then Retry(log.holdUntil - now)
    else if LiveUnits(cfg, log.grants, now) + cost <= cfg.limit then Acquired
    else
      PrunedIsLive(cfg, log.grants, now);
      Retry(Monus(FreedAt(cfg, Pruned(cfg, log.grants, now), LiveUnits(cfg, log.grants, now) + cost - cfg.limit), now))
  }

  function After(cfg: Config, log: Log, now: nat, cost: nat, record: bool): Log {
    if cost > cfg.limit || cost == 0 || log.holdUntil > now then log
    else
      var gs := Pruned(cfg, log.grants, now);
      if record && Units(gs) + cost <= cfg.limit then log.(grants := Stamped(gs, now, cost), used := Units(gs) + cost)
      else log.(grants := gs, used := Units(gs))
  }

  lemma {:induction false} UnitsAppend(gs: seq<Grant>, g: Grant)
    ensures Units(gs + [g]) == Units(gs) + g.count
  {
    if gs == [] {
      assert [g][1..] == [];
    } else {
      assert (gs + [g])[1..] == gs[1..] + [g];
      UnitsAppend(gs[1..], g);
    }
  }

  lemma StampedUnits(gs: seq<Grant>, now: nat, cost: nat)
    requires Sorted(gs)
    ensures Sorted(Stamped(gs, now, cost)) && Units(Stamped(gs, now, cost)) == Units(gs) + cost
  {
    UnitsAppend(gs, Stamped(gs, now, cost)[|gs|]);
  }

  /** Pruning stops at the first live grant, and that drops every expired one: what is left is exactly
      the units inside the window. */
  lemma {:induction false} PrunedIsLive(cfg: Config, gs: seq<Grant>, now: nat)
    requires Sorted(gs)
    ensures Sorted(Pruned(cfg, gs, now)) && Units(Pruned(cfg, gs, now)) == LiveUnits(cfg, gs, now)
  {
    if gs != [] {
      if Expired(cfg, gs[0], now) {
        PrunedIsLive(cfg, gs[1..], now);
      } else {
        AllLive(cfg, gs, now);
      }
    }
  }

  lemma {:induction false} AllLive(cfg: Config, gs: seq<Grant>, now: nat)
    requires forall i | 0 <= i < |gs| :: !Expired(cfg, gs[i], now)
    ensures LiveUnits(cfg, gs, now) == Units(gs)
  {
    if gs != [] { AllLive(cfg, gs[1..], now); }
  }

  // --- Waits are tight -------------------------------------------------------------------------------

  /** Once the first `needed` units are past their time, and not before, the live units have dropped by
      at least that much. */
  lemma {:induction false} FreedExactly(cfg: Config, gs: seq<Grant>, needed: nat, t: nat)
    requires Sorted(gs) && 0 < needed <= Units(gs)
    ensures LiveUnits(cfg, gs, t) <= Units(gs) - needed <==> FreedAt(cfg, gs, needed) <= t
  {
    if gs[0].count >= needed {
      if !Expired(cfg, gs[0], t) {
        AllLive(cfg, gs, t);
      } else {
        LiveAtMost(cfg, gs[1..], t);
      }
    } else {
      FreedExactly(cfg, gs[1..], needed - gs[0].count, t);
      if !Expired(cfg, gs[0], t) {
        AllLive(cfg, gs, t);
        AllLive(cfg, gs[1..], t);
      }
    }
  }

  lemma {:induction false} LiveAtMost(cfg: Config, gs: seq<Grant>, t: nat)
    ensures LiveUnits(cfg, gs, t) <= Units(gs)
  {
    if gs != [] { LiveAtMost(cfg, gs[1..], t); }
  }

  /** A refused request that is not paused is told exactly how long: with no other operation, the same
      cost is refused at every instant before the wait ends and granted at every instant from then on,
      also when the log is over its limit. */
  lemma WaitIsTight(cfg: Config, log: Log, now: nat, cost: nat, t: nat)
    requires WellFormed(log) && log.holdUntil <= now <= t && Decide(cfg, log, now, cost).Retry?
    ensures WellFormed(After(cfg, log, now, cost, true))
    ensures Decide(cfg, After(cfg, log, now, cost, true), t, cost) == Acquired
       <==> t >= now + Decide(cfg, log, now, cost).after
  {
    var gs := Pruned(cfg, log.grants, now);
    PrunedIsLive(cfg, log.grants, now);
    FreedExactly(cfg, gs, Units(gs) + cost - cfg.limit, t);
    FreedExactly(cfg, gs, Units(gs) + cost - cfg.limit, now);
    AllLiveAfterPrune(cfg, log.grants, now);
  }

  lemma {:induction false} AllLiveAfterPrune(cfg: Config, gs: seq<Grant>, now: nat)
    requires Sorted(gs)
    ensures LiveUnits(cfg, Pruned(cfg, gs, now), now) == Units(Pruned(cfg, gs, now))
  {
    if gs != [] {
      if Expired(cfg, gs[0], now) { AllLiveAfterPrune(cfg, gs[1..], now); } else { AllLive(cfg, gs, now); }
    }
  }

  // --- Saturation ----------------------------------------------------------------------------------------

  /** A grant expires exactly one window after it was made, unless the clock has run into the end of its
      range; there, one whose window reaches past the end expires early. */
  lemma ExpiryIsExact(cfg: Config, g: Grant, now: nat)
    requires now <= U64_MAX
    ensures (Expired(cfg, g, now) <==> g.at + cfg.window <= now)
       <==> (now < U64_MAX || g.at + cfg.window <= U64_MAX)
  {
  }
}

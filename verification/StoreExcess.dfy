/** How much stricter than the ideal store the bounded one can be. Writing a debt down and restoring it rounds
    twice, and a refund taken off a debt once more; nothing else is lost. Keys have distinct hashes here and start
    full; a key that starts emptier starts emptier again after every eviction. */
module StoreExcess {
  import opened Common
  import opened Bucket
  import opened Store
  import opened StoreRefinement

  // --- One eviction and what it leaves -------------------------------------------------------------------

  lemma RestoredAtMost(cfg: Config, now: nat, settlesAt: nat)
    requires cfg.Valid() && cfg.initial == cfg.capacity
    ensures Restored(cfg, now, settlesAt).full < Max(Level(cfg, settlesAt), Level(cfg, now)) + cfg.period
  {
    RestoredRoundTrip(cfg, Bucket(Level(cfg, settlesAt)), now, settlesAt);
    assert Cost(cfg, 0) == 0;
  }

  /** The whole round trip, over a request that pushes key `a` out: at every later instant the bucket its next
      acquire will see is no fuller than the evicted one would be by then, and as empty as any new key's, or emptier
      by less than one token and one nanosecond's refill. */
  lemma EvictedComesBack<K(!new)>(cfg: Config, hash: K -> nat, cap: nat, forget: bool, s: Snapshot<K>, now: nat,
                                  key: K, tokens: nat, maxWait: Option<nat>, answer: Answer, t: Snapshot<K>,
                                  room: Snapshot<K>, a: K, later: nat)
    requires cfg.Valid() && now <= later
    requires key !in s.live && Asked(cfg, hash, cap, forget, s, now, key, tokens, maxWait, answer, t, room, Some(a))
    ensures a in s.live && a !in t.live
    ensures Covers(cfg, Seen(cfg, hash, t, a, later), s.live[a], later)
    ensures hash(a) !in s.owed ==>
              || Seen(cfg, hash, t, a, later) == Fresh(cfg, later)
              || Seen(cfg, hash, t, a, later).full < Max(s.live[a].full, Level(cfg, later)) + cfg.period + cfg.amount
  {
    hide Take, Restored, FirstFull, Missing, Fresh;
    var bucket, settlesAt := s.live[a], t.owed[hash(a)];
    LosslessIsFull(cfg, bucket, now);
    FirstFullIsFirst(cfg, bucket, settlesAt);
    FirstFullAtMost(cfg, bucket);
    RestoredRoundTrip(cfg, bucket, later, settlesAt);
    hide Lossless;
  }

  // --- Whole runs ------------------------------------------------------------------------------------------

  /** What one call can cost `key` beyond what the ideal store takes: an eviction one token and one nanosecond's
      refill, a refund to its debt what rounding keeps from it. */
  function StepExcess<K>(cfg: Config, s: Snapshot<K>, l: Logged<K>, key: K): nat
    requires cfg.Valid()
  {
    match l.event
    case Ask(k, _, _, _, _, victim) => if k !in s.live && victim == Some(key) then cfg.period + cfg.amount else 0
    case GiveBack(k, tokens) => if k == key && key !in s.live then Unpaid(cfg, tokens) else 0
    case _ => 0
  }

  function Excess<K>(cfg: Config, log: seq<Logged<K>>, states: seq<Snapshot<K>>, key: K): nat
    requires cfg.Valid() && |states| > |log|
  {
    if log == [] then 0
    else
      var n := |log| - 1;
      Excess(cfg, log[..n], states, key) + StepExcess(cfg, states[n], log[n], key)
  }

  /** Keys that are reset are live. */
  predicate ResetsLive<K>(log: seq<Logged<K>>, states: seq<Snapshot<K>>)
    requires |states| > |log|
  {
    forall i | 0 <= i < |log| && log[i].event.Reset? :: log[i].event.key in states[i].live
  }

  /** At `now`, what the store remembers of `key` is at most `excess` emptier than the ideal bucket. */
  predicate KeyWithin<K>(cfg: Config, hash: K -> nat, s: Snapshot<K>, ideal: map<K, Bucket>, key: K, now: nat, excess: nat)
    requires cfg.Valid()
  {
    var most := Max(Known(cfg, ideal, key, now).full, Level(cfg, now)) + excess;
    if key in s.live then hash(key) !in s.owed && key in ideal && s.live[key].full <= most
    else hash(key) in s.owed ==> cfg.period <= excess && Level(cfg, s.owed[hash(key)]) + cfg.period <= most
  }

  lemma LaterWithin<K>(cfg: Config, hash: K -> nat, s: Snapshot<K>, ideal: map<K, Bucket>, key: K, now: nat, later: nat, excess: nat)
    requires cfg.Valid() && now <= later && KeyWithin(cfg, hash, s, ideal, key, now, excess)
    ensures KeyWithin(cfg, hash, s, ideal, key, later, excess)
  {
    LevelMonotone(cfg, now, later);
    MulMonotone(cfg.capacity - cfg.initial, cfg.capacity - cfg.initial, cfg.period);
    hide Level, Cost;
  }

  /** The bucket the next request sees is within the excess too. */
  lemma SeenWithin<K>(cfg: Config, hash: K -> nat, s: Snapshot<K>, ideal: map<K, Bucket>, key: K, now: nat, excess: nat)
    requires cfg.Valid() && cfg.initial == cfg.capacity && KeyWithin(cfg, hash, s, ideal, key, now, excess)
    ensures Seen(cfg, hash, s, key, now).full <= Max(Known(cfg, ideal, key, now).full, Level(cfg, now)) + excess
  {
    if key !in s.live && hash(key) in s.owed { RestoredAtMost(cfg, now, s.owed[hash(key)]); }
    assert Cost(cfg, 0) == 0;
    hide Restored;
  }

  /** A request of another key: this one stays, is forgotten full, or is written down. */
  lemma RoomWithin<K(!new)>(cfg: Config, hash: K -> nat, cap: nat, s: Snapshot<K>, now: nat, key: K,
                            room: Snapshot<K>, victim: Option<K>, ideal: map<K, Bucket>, k: K, excess: nat)
    requires cfg.Valid() && Distinct(hash) && k != key && key !in s.live
    requires MadeRoom(cfg, hash, cap, s.(owed := s.owed - {hash(key)}), now, false, room, victim)
    requires KeyWithin(cfg, hash, s, ideal, k, now, excess)
    ensures KeyWithin(cfg, hash, room, ideal, k, now, excess + if victim == Some(k) then cfg.period + cfg.amount else 0)
  {
    hide Lossless, FirstFull, Known;
    assert hash(k) != hash(key);
    if victim == Some(k) {
      LosslessIsFull(cfg, s.live[k], now);
      FirstFullAtMost(cfg, s.live[k]);
    } else if victim.Some? {
      assert hash(k) != hash(victim.value);
    }
  }

  lemma DrawnWithin(cfg: Config, strict: Bucket, loose: Bucket, tokens: nat, now: nat, excess: nat)
    requires strict.full <= Max(loose.full, Level(cfg, now)) + excess
    ensures Drawn(cfg, strict, tokens, now).full <= Max(Drawn(cfg, loose, tokens, now).full, Level(cfg, now)) + excess
  {
    hide Level, Cost;
  }

  /** A key that comes back owes nothing more under its hash. */
  lemma NothingOwedUnder<K(!new)>(cfg: Config, hash: K -> nat, cap: nat, s: Snapshot<K>, now: nat, key: K,
                                  room: Snapshot<K>, victim: Option<K>)
    requires cfg.Valid() && Distinct(hash) && key !in s.live
    requires MadeRoom(cfg, hash, cap, s.(owed := s.owed - {hash(key)}), now, false, room, victim)
    ensures hash(key) !in room.owed && key !in room.live
  {
    hide Lossless, DebtOf;
    if victim.Some? { assert victim.value != key; }
  }

  lemma OwnAskWithin<K(!new)>(cfg: Config, hash: K -> nat, cap: nat, s: Snapshot<K>, l: Logged<K>, t: Snapshot<K>,
                              ideal: map<K, Bucket>, excess: nat)
    requires cfg.Valid() && cfg.initial == cfg.capacity && Distinct(hash) && l.event.Ask? && Steps(cfg, hash, cap, s, l, t)
    requires KeyWithin(cfg, hash, s, ideal, l.event.key, l.now, excess)
    ensures KeyWithin(cfg, hash, t, Charged(cfg, ideal, l), l.event.key, l.now, excess)
  {
    var Ask(key, tokens, maxWait, answer, room, victim) := l.event;
    SeenWithin(cfg, hash, s, ideal, key, l.now, excess);
    hide Known, Level, Cost;
    if key !in s.live { NothingOwedUnder(cfg, hash, cap, s, l.now, key, room, victim); }
    DrawnWithin(cfg, Seen(cfg, hash, s, key, l.now), Known(cfg, ideal, key, l.now), tokens, l.now, excess);
    hide Drawn, Grants, MadeRoom, Restored, Fresh, Seen;
  }

  lemma AskWithin<K(!new)>(cfg: Config, hash: K -> nat, cap: nat, s: Snapshot<K>, l: Logged<K>, t: Snapshot<K>,
                           ideal: map<K, Bucket>, k: K, excess: nat)
    requires cfg.Valid() && cfg.initial == cfg.capacity && Distinct(hash) && l.event.Ask? && Steps(cfg, hash, cap, s, l, t)
    requires KeyWithin(cfg, hash, s, ideal, k, l.now, excess)
    ensures KeyWithin(cfg, hash, t, Charged(cfg, ideal, l), k, l.now, excess + StepExcess(cfg, s, l, k))
  {
    var Ask(key, tokens, maxWait, answer, room, victim) := l.event;
    if k == key {
      OwnAskWithin(cfg, hash, cap, s, l, t, ideal, excess);
      assert victim == Some(key) ==> key in s.live;
    } else {
      if key !in s.live { RoomWithin(cfg, hash, cap, s, l.now, key, room, victim, ideal, k, excess); }
    }
    hide MadeRoom, Take, Lossless, Level, Seen;
  }

  lemma RefundWithin<K(!new)>(cfg: Config, hash: K -> nat, cap: nat, s: Snapshot<K>, l: Logged<K>, t: Snapshot<K>,
                              ideal: map<K, Bucket>, k: K, excess: nat)
    requires cfg.Valid() && Distinct(hash) && l.event.GiveBack? && Steps(cfg, hash, cap, s, l, t)
    requires KeyWithin(cfg, hash, s, ideal, k, l.now, excess)
    ensures KeyWithin(cfg, hash, t, Charged(cfg, ideal, l), k, l.now, excess + StepExcess(cfg, s, l, k))
  {
    hide Unpaid, PaidDown;
    var GiveBack(key, tokens) := l.event;
    if k == key {
      if key !in s.live && hash(key) in s.owed {
        PaidDownEnough(cfg, s.owed[hash(key)], tokens);
        assert Level(cfg, 0) == 0;
      }
      hide Level, Cost;
    } else {
      assert hash(k) != hash(key);
    }
  }

  lemma StepWithin<K(!new)>(cfg: Config, hash: K -> nat, cap: nat, s: Snapshot<K>, l: Logged<K>, t: Snapshot<K>,
                            ideal: map<K, Bucket>, k: K, excess: nat)
    requires cfg.Valid() && cfg.initial == cfg.capacity && Distinct(hash) && Steps(cfg, hash, cap, s, l, t)
    requires l.event.Reset? ==> l.event.key in s.live
    requires KeyWithin(cfg, hash, s, ideal, k, l.now, excess)
    ensures KeyWithin(cfg, hash, t, Charged(cfg, ideal, l), k, l.now, excess + StepExcess(cfg, s, l, k))
  {
    match l.event
    case Ask(_, _, _, _, _, _) => AskWithin(cfg, hash, cap, s, l, t, ideal, k, excess);
    case GiveBack(_, _) => RefundWithin(cfg, hash, cap, s, l, t, ideal, k, excess);
    case Remove(key) => assert k != key ==> hash(k) != hash(key);
    case Reset(_) =>
    case Clear =>
  }

  lemma {:induction false} RunWithin<K(!new)>(cfg: Config, hash: K -> nat, cap: nat, log: seq<Logged<K>>, states: seq<Snapshot<K>>,
                                              n: nat, key: K)
    requires cfg.Valid() && cfg.initial == cfg.capacity && Distinct(hash) && Runs(cfg, hash, cap, log, states)
    requires ResetsLive(log, states) && n <= |log|
    ensures KeyWithin(cfg, hash, states[n], Ideal(cfg, log[..n]), key, LastNow(log[..n]), Excess(cfg, log[..n], states, key))
  {
    if n > 0 {
      hide KeyWithin, Charged, StepExcess, Steps;
      var l, before := log[n - 1], log[..n - 1];
      RunWithin(cfg, hash, cap, log, states, n - 1, key);
      assert log[..n][..n - 1] == before && log[..n][n - 1] == l;
      assert LastNow(before) <= l.now;
      LaterWithin(cfg, hash, states[n - 1], Ideal(cfg, before), key, LastNow(before), l.now, Excess(cfg, before, states, key));
      assert Steps(cfg, hash, cap, states[n - 1], log[n - 1], states[n - 1 + 1]);
      StepWithin(cfg, hash, cap, states[n - 1], l, states[n], Ideal(cfg, before), key, Excess(cfg, before, states, key));
    } else {
      assert log[..0] == [];
    }
  }

  /** The other side of the refinement. Over every run in which only live keys are reset, every key's deficit in
      the bounded store is at every later time at most that in the ideal one, and for each of its evictions one
      token and one nanosecond's refill, and for each refund to its debt what rounding kept from it. */
  lemma DeficitAtMost<K(!new)>(cfg: Config, hash: K -> nat, cap: nat, log: seq<Logged<K>>, states: seq<Snapshot<K>>, key: K, now: nat)
    requires cfg.Valid() && cfg.initial == cfg.capacity && Distinct(hash) && Runs(cfg, hash, cap, log, states)
    requires ResetsLive(log, states) && LastNow(log) <= now
    ensures Deficit(cfg, Seen(cfg, hash, states[|log|], key, now), now)
         <= Deficit(cfg, Known(cfg, Ideal(cfg, log), key, now), now) + Excess(cfg, log, states, key)
  {
    hide KeyWithin, Steps, ResetsLive, Seen, Known, Ideal, Excess;
    RunWithin(cfg, hash, cap, log, states, |log|, key);
    assert log[..|log|] == log;
    var ideal, excess := Ideal(cfg, log), Excess(cfg, log, states, key);
    LaterWithin(cfg, hash, states[|log|], ideal, key, LastNow(log), now, excess);
    SeenWithin(cfg, hash, states[|log|], ideal, key, now, excess);
  }

  // --- Resets ---------------------------------------------------------------------------------------------

  /** Exactly when a reset gives a key its full allowance: it is live, or owes nothing any more. */
  lemma ResetRestoresIff<K>(cfg: Config, hash: K -> nat, s: Snapshot<K>, key: K, now: nat)
    requires cfg.Valid() && cfg.initial == cfg.capacity
    ensures Lossless(cfg, Seen(cfg, hash, Renewed(cfg, s, key, now), key, now), now)
       <==> key in s.live || (hash(key) in s.owed ==> s.owed[hash(key)] <= now)
  {
    var seen := Seen(cfg, hash, Renewed(cfg, s, key, now), key, now);
    LosslessIsFull(cfg, seen, now);
    assert Cost(cfg, 0) == 0;
    if key !in s.live && hash(key) in s.owed {
      var settlesAt := s.owed[hash(key)];
      if settlesAt <= now {
        NothingMissing(cfg, now, settlesAt);
      } else {
        RestoredRoundTrip(cfg, Bucket(Level(cfg, settlesAt)), now, settlesAt);
        MulMonotone(now + 1, settlesAt, cfg.amount);
        assert (now + 1) * cfg.amount == now * cfg.amount + cfg.amount;
      }
    }
    hide Lossless, Restored;
  }

  /** The contrary happens: with room for one key, a second one pushes the first out, and resetting the first
      leaves it limited. */
  lemma ResetMissesDebt<K(!new)>(cfg: Config, hash: K -> nat, a: K, b: K)
    returns (log: seq<Logged<K>>, states: seq<Snapshot<K>>)
    requires cfg.Valid() && cfg.initial == cfg.capacity && a != b
    ensures Runs(cfg, hash, 1, log, states) && log != [] && log[|log| - 1] == Logged(0, Event<K>.Reset(a))
    ensures !Lossless(cfg, Seen(cfg, hash, states[|log|], a, 0), 0)
  {
    hide Leads, Steps, MadeRoom, Reserved, FirstFull, Lossless, Runs;
    DrawOne(cfg, 1);
    log, states := ReserveMany(cfg, hash, 1, a, 1);
    var s := One(cfg, a, 1);
    var room := Snapshot(s.live - {a}, map[hash(a) := FirstFull(cfg, s.live[a])]);
    RoomForOne(cfg, hash, 1, s, a, room);
    GetsRoom(cfg, hash, 1, s, b, room, Some(a));
    var push: Event<K> := Ask(b, 1, None, Ran(true), room, Some(a));
    var t := room.(live := room.live[b := Bucket(Reserved(cfg, 1))]);
    LeadsOn(cfg, hash, 1, log, states, s, a, Reserved(cfg, 1), push, t);
    log, states := log + [Logged(0, push)], states + [t];
    ResetIsStep(cfg, hash, 1, t, a);
    FirstFullIsFirst(cfg, s.live[a], 0);
    ResetRestoresIff(cfg, hash, t, a, 0);
    RunMore(cfg, hash, 1, log, states, t, a, Reserved(cfg, 1), Event<K>.Reset(a), t);
    log, states := log + [Logged(0, Event<K>.Reset(a))], states + [t];
  }

  lemma ResetIsStep<K(!new)>(cfg: Config, hash: K -> nat, cap: nat, s: Snapshot<K>, a: K)
    requires cfg.Valid() && a !in s.live
    ensures Steps(cfg, hash, cap, s, Logged(0, Event<K>.Reset(a)), s) && Renewed(cfg, s, a, 0) == s
  {
  }

  lemma RunMore<K(!new)>(cfg: Config, hash: K -> nat, cap: nat, log: seq<Logged<K>>, states: seq<Snapshot<K>>,
                         s: Snapshot<K>, a: K, full: int, e: Event<K>, t: Snapshot<K>)
    requires cfg.Valid() && Leads(cfg, hash, cap, log, states, s, a, full) && Steps(cfg, hash, cap, s, Logged(0, e), t)
    ensures Runs(cfg, hash, cap, log + [Logged(0, e)], states + [t]) && (states + [t])[|log| + 1] == t
  {
    hide Steps, Ideal, Runs;
    Extend(cfg, hash, cap, log, states, e, t);
  }
}

/** The bounded store against an ideal one that never forgets a key: over every run, and whatever was
    evicted, swept or restored, each key's bucket in the store is no fuller than in the ideal one, so the
    store grants nothing the ideal one would have refused. The ledger is keyed by hash alone, so this needs
    keys with distinct hashes, or so few keys that none is ever evicted while limited. */
module StoreRefinement {
  import opened Common
  import opened Bucket
  import opened Store

  /** A call with its answer. `room` and `victim` say how room was made for a new key. */
  datatype Event<K> =
    | Ask(key: K, tokens: nat, maxWait: Option<nat>, answer: Answer, room: Snapshot<K>, victim: Option<K>)
    | GiveBack(key: K, tokens: nat)
    | Remove(key: K)
    | Reset(key: K)
    | Clear

  datatype Logged<K> = Logged(now: nat, event: Event<K>)

  ghost predicate Steps<K(!new)>(cfg: Config, hash: K -> nat, cap: nat, s: Snapshot<K>, l: Logged<K>, t: Snapshot<K>)
    requires cfg.Valid()
  {
    match l.event
    case Ask(key, tokens, maxWait, answer, room, victim) =>
      Asked(cfg, hash, cap, false, s, l.now, key, tokens, maxWait, answer, t, room, victim)
    case GiveBack(key, tokens) => t == Refunded(cfg, hash, s, key, tokens)
    case Remove(key) => t == Forgotten(hash, s, key)
    case Reset(key) => t == Renewed(cfg, s, key, l.now)
    case Clear => t == Snapshot(map[], map[])
  }

  function LastNow<K>(log: seq<Logged<K>>): nat {
    if log == [] then 0 else log[|log| - 1].now
  }

  /** A run of a store for `cap` keys, from empty, with a clock that does not go back. */
  ghost predicate Runs<K(!new)>(cfg: Config, hash: K -> nat, cap: nat, log: seq<Logged<K>>, states: seq<Snapshot<K>>)
    requires cfg.Valid()
  {
    && |states| == |log| + 1 && states[0] == Snapshot(map[], map[])
    && (forall i | 0 <= i < |log| :: Steps(cfg, hash, cap, states[i], log[i], states[i + 1]))
    && (forall i | 0 < i < |log| :: log[i - 1].now <= log[i].now)
  }

  // --- The ideal store ---------------------------------------------------------------------------------

  function Known<K>(cfg: Config, ideal: map<K, Bucket>, key: K, now: nat): Bucket
    requires cfg.Valid()
  {
    if key in ideal then ideal[key] else Fresh(cfg, now)
  }

  /** An unbounded map of buckets, charged with what the store granted. */
  function Charged<K>(cfg: Config, ideal: map<K, Bucket>, l: Logged<K>): map<K, Bucket>
    requires cfg.Valid()
  {
    match l.event
    case Ask(key, tokens, _, answer, _, _) =>
      if answer.NoRoom? then ideal
      else
        var bucket := Known(cfg, ideal, key, l.now);
        ideal[key := if answer.granted then Drawn(cfg, bucket, tokens, l.now) else bucket]
    case GiveBack(key, tokens) => if key in ideal then ideal[key := Refund(cfg, ideal[key], tokens)] else ideal
    case Remove(key) => ideal - {key}
    case Reset(key) => if key in ideal then ideal[key := Bucket(Level(cfg, l.now))] else ideal
    case Clear => map[]
  }

  function Ideal<K>(cfg: Config, log: seq<Logged<K>>): map<K, Bucket>
    requires cfg.Valid()
  {
    if log == [] then map[] else Charged(cfg, Ideal(cfg, log[..|log| - 1]), log[|log| - 1])
  }

  /** The ideal store allows what `l` granted. */
  predicate Allowed<K>(cfg: Config, ideal: map<K, Bucket>, l: Logged<K>)
    requires cfg.Valid()
  {
    l.event.Ask? && l.event.answer == Ran(true) ==>
      Grants(cfg, Known(cfg, ideal, l.event.key, l.now), l.event.tokens, l.event.maxWait, l.now)
  }

  predicate Safe<K>(cfg: Config, log: seq<Logged<K>>)
    requires cfg.Valid()
  {
    forall i | 0 <= i < |log| :: Allowed(cfg, Ideal(cfg, log[..i]), log[i])
  }

  ghost predicate Distinct<K(!new)>(hash: K -> nat) {
    forall a, b :: hash(a) == hash(b) ==> a == b
  }

  /** There are no more than `cap` keys. */
  ghost predicate Few<K(!new)>(cap: nat) {
    forall keys: set<K> :: |keys| <= cap
  }

  /** No key can be taken for another here: hashes are distinct, or nothing is owed. */
  ghost predicate Unmistaken<K(!new)>(hash: K -> nat, s: Snapshot<K>) {
    Distinct(hash) || s.owed == map[]
  }

  // --- What every step keeps ---------------------------------------------------------------------------

  /** What the store remembers of `key` is no fuller than the ideal bucket, at `now` and from then on. */
  predicate KeyCovered<K>(cfg: Config, hash: K -> nat, s: Snapshot<K>, ideal: map<K, Bucket>, key: K, now: nat) {
    if key in s.live then key in ideal && Covers(cfg, s.live[key], ideal[key], now)
    else key in ideal ==>
           ideal[key].full <= Max(if hash(key) in s.owed then Level(cfg, s.owed[hash(key)]) else 0, Level(cfg, now))
  }

  ghost predicate Covered<K(!new)>(cfg: Config, hash: K -> nat, s: Snapshot<K>, ideal: map<K, Bucket>, now: nat) {
    forall key :: KeyCovered(cfg, hash, s, ideal, key, now)
  }

  lemma SeenCovered<K>(cfg: Config, hash: K -> nat, s: Snapshot<K>, ideal: map<K, Bucket>, key: K, now: nat)
    requires cfg.Valid() && KeyCovered(cfg, hash, s, ideal, key, now)
    ensures Covers(cfg, Seen(cfg, hash, s, key, now), Known(cfg, ideal, key, now), now)
  {
    if key !in s.live && hash(key) in s.owed {
      var settlesAt := s.owed[hash(key)];
      var owed := Bucket(Level(cfg, settlesAt));
      RestoredRoundTrip(cfg, owed, now, settlesAt);
      MulMonotone(cfg.capacity - cfg.initial, Max(Missing(cfg, now, settlesAt), cfg.capacity - cfg.initial), cfg.period);
    }
  }

  lemma LaterCovered<K(!new)>(cfg: Config, hash: K -> nat, s: Snapshot<K>, ideal: map<K, Bucket>, now: nat, later: nat)
    requires Covered(cfg, hash, s, ideal, now) && now <= later
    ensures Covered(cfg, hash, s, ideal, later)
  {
    LevelMonotone(cfg, now, later);
    forall key ensures KeyCovered(cfg, hash, s, ideal, key, later) {
      assert KeyCovered(cfg, hash, s, ideal, key, now);
    }
  }

  /** Making room for `key` keeps every other key covered, and `key` too if it left no debt. */
  lemma RoomCovered<K(!new)>(cfg: Config, hash: K -> nat, cap: nat, s: Snapshot<K>, now: nat, key: K,
                             room: Snapshot<K>, victim: Option<K>, ideal: map<K, Bucket>, k: K)
    requires cfg.Valid() && Unmistaken(hash, s)
    requires MadeRoom(cfg, hash, cap, s.(owed := s.owed - {hash(key)}), now, false, room, victim)
    requires KeyCovered(cfg, hash, s, ideal, k, now)
    requires k != key || hash(key) !in s.owed
    ensures KeyCovered(cfg, hash, room, ideal, k, now)
  {
    hide FirstFull, Lossless;
    if k in s.live {
      LosslessIsFull(cfg, s.live[k], now);
      if victim == Some(k) {
        FirstFullIsFirst(cfg, s.live[k], room.owed[hash(k)]);
      }
    } else if k != key && hash(k) in s.owed {
      assert hash(k) != hash(key);
      if s.owed[hash(k)] <= now {
        LevelMonotone(cfg, s.owed[hash(k)], now);
      } else {
        LevelMonotone(cfg, s.owed[hash(k)], room.owed[hash(k)]);
      }
    }
  }

  lemma AskCovered<K(!new)>(cfg: Config, hash: K -> nat, cap: nat, s: Snapshot<K>, l: Logged<K>, t: Snapshot<K>, ideal: map<K, Bucket>)
    requires cfg.Valid() && Unmistaken(hash, s) && l.event.Ask? && Steps(cfg, hash, cap, s, l, t)
    requires Covered(cfg, hash, s, ideal, l.now)
    ensures Covered(cfg, hash, t, Charged(cfg, ideal, l), l.now) && Allowed(cfg, ideal, l)
  {
    var Ask(key, tokens, maxWait, answer, room, victim) := l.event;
    var seen, known := Seen(cfg, hash, s, key, l.now), Known(cfg, ideal, key, l.now);
    assert KeyCovered(cfg, hash, s, ideal, key, l.now);
    SeenCovered(cfg, hash, s, ideal, key, l.now);
    if Grants(cfg, seen, tokens, maxWait, l.now) {
      CoversTake(cfg, seen, known, tokens, maxWait, l.now);
    }
    forall k ensures KeyCovered(cfg, hash, t, Charged(cfg, ideal, l), k, l.now) {
      assert KeyCovered(cfg, hash, s, ideal, k, l.now);
      if key !in s.live && (k != key || answer.NoRoom?) {
        RoomCovered(cfg, hash, cap, s, l.now, key, room, victim, ideal, k);
      }
    }
  }

  lemma RefundCovered<K(!new)>(cfg: Config, hash: K -> nat, cap: nat, s: Snapshot<K>, l: Logged<K>, t: Snapshot<K>, ideal: map<K, Bucket>)
    requires cfg.Valid() && Unmistaken(hash, s) && l.event.GiveBack? && Steps(cfg, hash, cap, s, l, t)
    requires Covered(cfg, hash, s, ideal, l.now)
    ensures Covered(cfg, hash, t, Charged(cfg, ideal, l), l.now)
  {
    var GiveBack(key, tokens) := l.event;
    forall k ensures KeyCovered(cfg, hash, t, Charged(cfg, ideal, l), k, l.now) {
      assert KeyCovered(cfg, hash, s, ideal, k, l.now);
      if k == key && key in ideal {
        if key in s.live {
          CoversRefund(cfg, s.live[key], ideal[key], tokens, l.now);
        } else if hash(key) in s.owed {
          PaidDownCovers(cfg, ideal[key], l.now, s.owed[hash(key)], tokens);
        }
      }
    }
  }

  /** One step keeps the store covered and grants only what the ideal store allows. */
  lemma StepCovered<K(!new)>(cfg: Config, hash: K -> nat, cap: nat, s: Snapshot<K>, l: Logged<K>, t: Snapshot<K>, ideal: map<K, Bucket>)
    requires cfg.Valid() && Unmistaken(hash, s) && Steps(cfg, hash, cap, s, l, t)
    requires Covered(cfg, hash, s, ideal, l.now)
    ensures Covered(cfg, hash, t, Charged(cfg, ideal, l), l.now) && Allowed(cfg, ideal, l)
  {
    match l.event
    case Ask(_, _, _, _, _, _) => AskCovered(cfg, hash, cap, s, l, t, ideal);
    case GiveBack(_, _) => RefundCovered(cfg, hash, cap, s, l, t, ideal);
    case _ =>
      forall k ensures KeyCovered(cfg, hash, t, Charged(cfg, ideal, l), k, l.now) {
        assert KeyCovered(cfg, hash, s, ideal, k, l.now);
      }
  }

  lemma TwoMore<K(!new)>(hash: K -> nat, cap: nat, keys: set<K>, a: K, b: K)
    requires Few<K>(cap) && a !in keys && b !in keys && a != b
    ensures |keys| + 2 <= cap
  {
    assert |keys + {a} + {b}| == |keys| + 2;
  }

  /** With no more keys than there is room for, no limited key is ever evicted, so nothing is ever owed. */
  lemma FewOweNothing<K(!new)>(cfg: Config, hash: K -> nat, cap: nat, s: Snapshot<K>, l: Logged<K>, t: Snapshot<K>)
    requires cfg.Valid() && cap > 0 && Few<K>(cap) && s.owed == map[] && Steps(cfg, hash, cap, s, l, t)
    ensures t.owed == map[]
  {
    if l.event.Ask? && l.event.key !in s.live && l.event.victim.Some? {
      TwoMore(hash, cap, l.event.room.live.Keys, l.event.victim.value, l.event.key);
    }
  }

  lemma {:induction false} FewNeverOwe<K(!new)>(cfg: Config, hash: K -> nat, cap: nat, log: seq<Logged<K>>, states: seq<Snapshot<K>>, i: nat)
    requires cfg.Valid() && cap > 0 && Few<K>(cap) && Runs(cfg, hash, cap, log, states) && i <= |log|
    ensures states[i].owed == map[]
  {
    if i > 0 {
      FewNeverOwe(cfg, hash, cap, log, states, i - 1);
      FewOweNothing(cfg, hash, cap, states[i - 1], log[i - 1], states[i]);
    }
  }

  /** Over every run, what the store remembers stays covered, and it grants only what the ideal store allows. */
  lemma {:induction false} RunCovered<K(!new)>(cfg: Config, hash: K -> nat, cap: nat, log: seq<Logged<K>>, states: seq<Snapshot<K>>)
    requires cfg.Valid() && cap > 0 && (Distinct(hash) || Few<K>(cap)) && Runs(cfg, hash, cap, log, states)
    ensures Covered(cfg, hash, states[|log|], Ideal(cfg, log), LastNow(log)) && Safe(cfg, log)
  {
    if log != [] {
      hide Steps, Covered, Safe, Allowed, Charged, KeyCovered;
      var n := |log| - 1;
      var before := log[..n];
      RunCovered(cfg, hash, cap, before, states[..|log|]);
      assert states[..|log|][n] == states[n] && before + [log[n]] == log;
      LaterCovered(cfg, hash, states[n], Ideal(cfg, before), LastNow(before), log[n].now);
      assert Steps(cfg, hash, cap, states[n], log[n], states[n + 1]);
      if !Distinct(hash) { FewNeverOwe(cfg, hash, cap, log, states, n); }
      StepCovered(cfg, hash, cap, states[n], log[n], states[n + 1], Ideal(cfg, before));
      SafeMore(cfg, before, log[n]);
    }
  }

  lemma SafeMore<K>(cfg: Config, before: seq<Logged<K>>, l: Logged<K>)
    requires cfg.Valid() && Safe(cfg, before) && Allowed(cfg, Ideal(cfg, before), l)
    ensures Safe(cfg, before + [l])
  {
    var log := before + [l];
    forall i | 0 <= i < |log| ensures Allowed(cfg, Ideal(cfg, log[..i]), log[i]) {
      if i < |before| {
        assert log[..i] == before[..i];
        assert Allowed(cfg, Ideal(cfg, before[..i]), before[i]);
      } else {
        assert log[..i] == before;
      }
    }
  }

  /** Over every run, every key the ideal store knows has at least as large a deficit in the bounded store,
      at every later time. */
  lemma DeficitNeverSmaller<K(!new)>(cfg: Config, hash: K -> nat, cap: nat, log: seq<Logged<K>>, states: seq<Snapshot<K>>, key: K, now: nat)
    requires cfg.Valid() && cap > 0 && (Distinct(hash) || Few<K>(cap)) && Runs(cfg, hash, cap, log, states) && LastNow(log) <= now
    ensures key in Ideal(cfg, log) ==>
              Deficit(cfg, Seen(cfg, hash, states[|log|], key, now), now) >= Deficit(cfg, Ideal(cfg, log)[key], now)
  {
    RunCovered(cfg, hash, cap, log, states);
    LaterCovered(cfg, hash, states[|log|], Ideal(cfg, log), LastNow(log), now);
    assert KeyCovered(cfg, hash, states[|log|], Ideal(cfg, log), key, now);
    SeenCovered(cfg, hash, states[|log|], Ideal(cfg, log), key, now);
  }

  // --- Otherwise it does not hold ----------------------------------------------------------------------

  /** A run that ends in `s`, with `key`'s ideal bucket full only at `full`. */
  ghost predicate Leads<K(!new)>(cfg: Config, hash: K -> nat, cap: nat, log: seq<Logged<K>>, states: seq<Snapshot<K>>,
                                 s: Snapshot<K>, key: K, full: int)
    requires cfg.Valid()
  {
    && Runs(cfg, hash, cap, log, states) && LastNow(log) == 0 && |states| == |log| + 1 && states[|log|] == s
    && key in Ideal(cfg, log) && Ideal(cfg, log)[key].full == full
  }

  lemma IdealMore<K>(cfg: Config, log: seq<Logged<K>>, l: Logged<K>)
    requires cfg.Valid()
    ensures Ideal(cfg, log + [l]) == Charged(cfg, Ideal(cfg, log), l)
  {
    assert (log + [l])[..|log|] == log;
  }

  /** One more call, at the same instant. */
  lemma Extend<K(!new)>(cfg: Config, hash: K -> nat, cap: nat, log: seq<Logged<K>>, states: seq<Snapshot<K>>, e: Event<K>, t: Snapshot<K>)
    requires cfg.Valid() && Runs(cfg, hash, cap, log, states) && LastNow(log) == 0
    requires Steps(cfg, hash, cap, states[|log|], Logged(0, e), t)
    ensures Runs(cfg, hash, cap, log + [Logged(0, e)], states + [t]) && LastNow(log + [Logged(0, e)]) == 0
    ensures (states + [t])[|log| + 1] == t
    ensures Ideal(cfg, log + [Logged(0, e)]) == Charged(cfg, Ideal(cfg, log), Logged(0, e))
  {
    hide Steps, Ideal, Charged;
    IdealMore(cfg, log, Logged(0, e));
    var more := log + [Logged(0, e)];
    forall i | 0 < i < |more| ensures more[i - 1].now <= more[i].now {
      if i < |log| { assert log[i - 1].now <= log[i].now; }
    }
  }

  /** One more call, for another key. */
  lemma LeadsOn<K(!new)>(cfg: Config, hash: K -> nat, cap: nat, log: seq<Logged<K>>, states: seq<Snapshot<K>>,
                         s: Snapshot<K>, a: K, full: int, e: Event<K>, t: Snapshot<K>)
    requires cfg.Valid() && Leads(cfg, hash, cap, log, states, s, a, full)
    requires (e.Ask? || e.Remove?) && e.key != a && Steps(cfg, hash, cap, s, Logged(0, e), t)
    ensures Leads(cfg, hash, cap, log + [Logged(0, e)], states + [t], t, a, full)
  {
    hide Steps, Ideal, Runs;
    Extend(cfg, hash, cap, log, states, e, t);
  }

  /** What is owed to a fresh bucket after `times` one-token reservations. */
  function Reserved(cfg: Config, times: nat): int
    requires cfg.Valid()
  {
    Cost(cfg, cfg.capacity - cfg.initial) + times * cfg.period
  }

  function One<K>(cfg: Config, key: K, times: nat): Snapshot<K>
    requires cfg.Valid()
  {
    Snapshot(map[key := Bucket(Reserved(cfg, times))], map[])
  }

  lemma DrawOne(cfg: Config, times: nat)
    requires cfg.Valid()
    ensures Drawn(cfg, Bucket(Reserved(cfg, times)), 1, 0) == Bucket(Reserved(cfg, times + 1))
    ensures Fresh(cfg, 0) == Bucket(Reserved(cfg, 0)) && Reserved(cfg, times) >= times
  {
    assert (times + 1) * cfg.period == times * cfg.period + cfg.period;
    assert Level(cfg, 0) == 0 && Cost(cfg, 1) == cfg.period;
    MulMonotone(1, cfg.period, times);
    assert times * cfg.period == cfg.period * times;
  }

  /** However deep in debt a key is, it can reserve one token more if it does not mind the wait. */
  lemma ReserveOnce<K(!new)>(cfg: Config, hash: K -> nat, cap: nat, log: seq<Logged<K>>, states: seq<Snapshot<K>>,
                             a: K, times: nat, e: Event<K>, t: Snapshot<K>)
    requires cfg.Valid() && Leads(cfg, hash, cap, log, states, One(cfg, a, times), a, Reserved(cfg, times))
    requires e.Ask? && e.key == a && e.tokens == 1 && e.maxWait == None
    requires Steps(cfg, hash, cap, One(cfg, a, times), Logged(0, e), t)
    ensures t == One(cfg, a, times + 1) && e.answer == Ran(true)
    ensures Leads(cfg, hash, cap, log + [Logged(0, e)], states + [t], t, a, Reserved(cfg, times + 1))
  {
    hide Runs, Ideal, Reserved;
    DrawOne(cfg, times);
    assert One(cfg, a, times).live[a := Bucket(Reserved(cfg, times + 1))] == One(cfg, a, times + 1).live;
    Extend(cfg, hash, cap, log, states, e, t);
  }

  lemma FirstState<K(!new)>(cfg: Config, hash: K -> nat, cap: nat, a: K, e: Event<K>, t: Snapshot<K>)
    requires cfg.Valid() && e.Ask? && e.key == a && e.tokens == 1 && e.maxWait == None && e.answer.Ran?
    requires Steps(cfg, hash, cap, Snapshot(map[], map[]), Logged(0, e), t)
    ensures t == One(cfg, a, 1) && e.answer == Ran(true)
  {
    hide Reserved, Drawn, Fresh;
    DrawOne(cfg, 0);
    assert e.room.live == map[] && e.room.owed == map[];
    assert map[][a := Bucket(Reserved(cfg, 1))] == map[a := Bucket(Reserved(cfg, 1))];
  }

  /** The first call of all. */
  lemma FirstReserve<K(!new)>(cfg: Config, hash: K -> nat, cap: nat, a: K, e: Event<K>, t: Snapshot<K>)
    requires cfg.Valid() && cap > 0 && e.Ask? && e.key == a && e.tokens == 1 && e.maxWait == None && e.answer.Ran?
    requires Steps(cfg, hash, cap, Snapshot(map[], map[]), Logged(0, e), t)
    ensures t == One(cfg, a, 1) && e.answer == Ran(true)
    ensures Leads(cfg, hash, cap, [Logged(0, e)], [Snapshot(map[], map[]), t], t, a, Reserved(cfg, 1))
  {
    hide Reserved, Steps, Drawn, Fresh;
    DrawOne(cfg, 0);
    FirstState(cfg, hash, cap, a, e, t);
    Extend(cfg, hash, cap, [], [Snapshot(map[], map[])], e, t);
  }

  /** A key that minds no wait asks for one token and gets it. */
  function Reserve<K>(key: K, room: Snapshot<K>): Event<K> {
    Ask(key, 1, None, Ran(true), room, None)
  }

  lemma FirstSteps<K(!new)>(cfg: Config, hash: K -> nat, cap: nat, a: K)
    requires cfg.Valid() && cap > 0
    ensures Steps(cfg, hash, cap, Snapshot(map[], map[]), Logged(0, Reserve(a, Snapshot(map[], map[]))), One(cfg, a, 1))
  {
    hide Drawn, Fresh, Reserved;
    DrawOne(cfg, 0);
    assert map[][a := Bucket(Reserved(cfg, 1))] == map[a := Bucket(Reserved(cfg, 1))];
    var s: Snapshot<K> := Snapshot(map[], map[]);
    assert s.owed - {hash(a)} == map[];
  }

  lemma AgainSteps<K(!new)>(cfg: Config, hash: K -> nat, cap: nat, a: K, times: nat, room: Snapshot<K>)
    requires cfg.Valid()
    ensures Steps(cfg, hash, cap, One(cfg, a, times), Logged(0, Reserve(a, room)), One(cfg, a, times + 1))
  {
    hide Drawn, Fresh, Reserved;
    DrawOne(cfg, times);
    assert One(cfg, a, times).live[a := Bucket(Reserved(cfg, times + 1))] == One(cfg, a, times + 1).live;
  }

  lemma {:induction false} ReserveMany<K(!new)>(cfg: Config, hash: K -> nat, cap: nat, a: K, times: nat)
    returns (log: seq<Logged<K>>, states: seq<Snapshot<K>>)
    requires cfg.Valid() && cap > 0 && times > 0
    ensures Leads(cfg, hash, cap, log, states, One(cfg, a, times), a, Reserved(cfg, times))
  {
    hide Leads, Reserved, Steps, One;
    var empty: Snapshot<K> := Snapshot(map[], map[]);
    var e := Reserve(a, empty);
    if times == 1 {
      FirstSteps(cfg, hash, cap, a);
      FirstReserve(cfg, hash, cap, a, e, One(cfg, a, 1));
      log, states := [Logged(0, e)], [empty, One(cfg, a, 1)];
    } else {
      log, states := ReserveMany(cfg, hash, cap, a, times - 1);
      AgainSteps(cfg, hash, cap, a, times - 1, empty);
      ReserveOnce(cfg, hash, cap, log, states, a, times - 1, e, One(cfg, a, times));
      log, states := log + [Logged(0, e)], states + [One(cfg, a, times)];
    }
  }

  lemma NewcomerSteps<K(!new)>(cfg: Config, hash: K -> nat, cap: nat, s: Snapshot<K>, c: K)
    requires cfg.Valid() && c !in s.live && |s.live| < cap && s.owed == map[]
    ensures Steps(cfg, hash, cap, s, Logged(0, Reserve(c, s)), s.(live := s.live[c := Bucket(Reserved(cfg, 1))]))
  {
    hide Reserved, Steps;
    NothingMakesRoom(cfg, hash, cap, s, 0, false);
    GetsRoom(cfg, hash, cap, s, c, s, None);
  }

  /** A new key comes into a store with room, and reserves a token. */
  lemma Newcomer<K(!new)>(cfg: Config, hash: K -> nat, cap: nat, log: seq<Logged<K>>, states: seq<Snapshot<K>>,
                          s: Snapshot<K>, a: K, full: int, c: K)
    returns (more: seq<Logged<K>>, after: seq<Snapshot<K>>, t: Snapshot<K>)
    requires cfg.Valid() && Leads(cfg, hash, cap, log, states, s, a, full)
    requires c !in s.live && c != a && |s.live| < cap && s.owed == map[]
    ensures Leads(cfg, hash, cap, more, after, t, a, full)
    ensures t == s.(live := s.live[c := Bucket(Reserved(cfg, 1))])
    ensures t.live.Keys == s.live.Keys + {c} && |t.live| == |s.live| + 1
  {
    hide Leads, Reserved, Steps;
    t := s.(live := s.live[c := Bucket(Reserved(cfg, 1))]);
    NewcomerSteps(cfg, hash, cap, s, c);
    LeadsOn(cfg, hash, cap, log, states, s, a, full, Reserve(c, s), t);
    more, after := log + [Logged(0, Reserve(c, s))], states + [t];
    assert t.live.Keys == s.live.Keys + {c};
  }

  lemma OneLess<K>(others: set<K>, keys: set<K>, c: K)
    requires c in others && others * keys == {}
    ensures c !in keys && (others - {c}) * (keys + {c}) == {} && |others - {c}| == |others| - 1
    ensures keys + {c} + (others - {c}) == keys + others
  {
    assert c !in others * keys;
    forall x | x in others - {c} ensures x !in keys { assert x !in others * keys; }
  }

  /** Newcomers until `others` are all there. */
  lemma {:induction false} FillUp<K(!new)>(cfg: Config, hash: K -> nat, cap: nat, log: seq<Logged<K>>, states: seq<Snapshot<K>>,
                                           s: Snapshot<K>, a: K, full: int, others: set<K>)
    returns (more: seq<Logged<K>>, after: seq<Snapshot<K>>, t: Snapshot<K>)
    requires cfg.Valid() && Leads(cfg, hash, cap, log, states, s, a, full)
    requires a in s.live && s.owed == map[] && others * s.live.Keys == {} && |s.live| + |others| <= cap
    ensures Leads(cfg, hash, cap, more, after, t, a, full)
    ensures t.live.Keys == s.live.Keys + others && t.live[a] == s.live[a] && t.owed == map[] && |t.live| == |s.live| + |others|
    decreases |others|
  {
    if others == {} {
      more, after, t := log, states, s;
    } else {
      hide Leads, Reserved;
      var c :| c in others;
      OneLess(others, s.live.Keys, c);
      more, after, t := Newcomer(cfg, hash, cap, log, states, s, a, full, c);
      more, after, t := FillUp(cfg, hash, cap, more, after, t, a, full, others - {c});
    }
  }

  /** `b` pushes the limited `a` out of a full store, and removing `b` throws the debt of `a` away when they
      share a hash. */
  lemma PushAndRemove<K(!new)>(cfg: Config, hash: K -> nat, cap: nat, log: seq<Logged<K>>, states: seq<Snapshot<K>>,
                               s: Snapshot<K>, a: K, b: K, full: int)
    returns (more: seq<Logged<K>>, after: seq<Snapshot<K>>)
    requires cfg.Valid() && a != b && hash(a) == hash(b) && Leads(cfg, hash, cap, log, states, s, a, full)
    requires cap > 0 && a in s.live && s.live[a].full > 0 && b !in s.live && s.owed == map[] && |s.live| == cap
    ensures Leads(cfg, hash, cap, more, after, Snapshot(s.live - {a}, map[]), a, full)
  {
    hide Leads, Steps;
    var room, pushed := PushOut(cfg, hash, cap, s, a, b);
    var push: Event<K> := Ask(b, 1, None, Ran(true), room, Some(a));
    LeadsOn(cfg, hash, cap, log, states, s, a, full, push, pushed);
    more, after := log + [Logged(0, push)], states + [pushed];
    var gone := Snapshot(s.live - {a}, map[]);
    RemoveIsStep(cfg, hash, cap, pushed, b);
    LeadsOn(cfg, hash, cap, more, after, pushed, a, full, Event<K>.Remove(b), gone);
    more, after := more + [Logged(0, Event<K>.Remove(b))], after + [gone];
  }

  lemma RemoveIsStep<K(!new)>(cfg: Config, hash: K -> nat, cap: nat, s: Snapshot<K>, b: K)
    requires cfg.Valid()
    ensures Steps(cfg, hash, cap, s, Logged(0, Event<K>.Remove(b)), Forgotten(hash, s, b))
  {
  }

  /** A new key that owes nothing gets its first token when room is made for it. */
  lemma GetsRoom<K(!new)>(cfg: Config, hash: K -> nat, cap: nat, s: Snapshot<K>, b: K, room: Snapshot<K>, victim: Option<K>)
    requires cfg.Valid() && b !in s.live && hash(b) !in s.owed && |room.live| < cap
    requires MadeRoom(cfg, hash, cap, s, 0, false, room, victim)
    ensures Steps(cfg, hash, cap, s, Logged(0, Ask(b, 1, None, Ran(true), room, victim)),
                  room.(live := room.live[b := Bucket(Reserved(cfg, 1))]))
  {
    hide MadeRoom, Take, Reserved, Fresh;
    FirstToken(cfg);
    assert s.owed - {hash(b)} == s.owed;
    assert Seen(cfg, hash, s, b, 0) == Fresh(cfg, 0);
    hide Seen;
  }

  lemma FirstToken(cfg: Config)
    requires cfg.Valid()
    ensures Take(cfg, Fresh(cfg, 0), 1, None, 0) == (true, Bucket(Reserved(cfg, 1)))
  {
    DrawOne(cfg, 0);
  }

  lemma PushOut<K(!new)>(cfg: Config, hash: K -> nat, cap: nat, s: Snapshot<K>, a: K, b: K)
    returns (room: Snapshot<K>, pushed: Snapshot<K>)
    requires cfg.Valid() && a != b && hash(a) == hash(b)
    requires cap > 0 && a in s.live && s.live[a].full > 0 && b !in s.live && s.owed == map[] && |s.live| == cap
    ensures Steps(cfg, hash, cap, s, Logged(0, Ask(b, 1, None, Ran(true), room, Some(a))), pushed)
    ensures Forgotten(hash, pushed, b) == Snapshot(s.live - {a}, map[])
  {
    hide MadeRoom, FirstFull, Steps, Reserved;
    room := Snapshot(s.live - {a}, map[hash(a) := FirstFull(cfg, s.live[a])]);
    RoomForOne(cfg, hash, cap, s, a, room);
    pushed := room.(live := room.live[b := Bucket(Reserved(cfg, 1))]);
    GetsRoom(cfg, hash, cap, s, b, room, Some(a));
    ForgetsBoth(s.live - {a}, b, Bucket(Reserved(cfg, 1)), hash(b), FirstFull(cfg, s.live[a]));
  }

  lemma ForgetsBoth<K>(live: map<K, Bucket>, b: K, bucket: Bucket, h: nat, debt: nat)
    requires b !in live
    ensures live[b := bucket] - {b} == live && map[h := debt] - {h} == map[]
  {
  }

  lemma RoomForOne<K(!new)>(cfg: Config, hash: K -> nat, cap: nat, s: Snapshot<K>, a: K, room: Snapshot<K>)
    requires cfg.Valid() && a in s.live && s.live[a].full > 0 && s.owed == map[] && |s.live| == cap
    requires room == Snapshot(s.live - {a}, map[hash(a) := FirstFull(cfg, s.live[a])])
    ensures MadeRoom(cfg, hash, cap, s, 0, false, room, Some(a)) && |room.live| == cap - 1
  {
    LosslessIsFull(cfg, s.live[a], 0);
    assert s.live.Keys == room.live.Keys + {a};
    hide FirstFull, Lossless;
  }

  /** A wait within which a fresh bucket grants one token. */
  function LongWait(cfg: Config): nat
    requires cfg.Valid()
  {
    Cost(cfg, cfg.capacity - cfg.initial) + cfg.period
  }

  /** So many reservations that `LongWait` is far too short for a bucket that owes them. */
  function ManyTimes(cfg: Config): nat
    requires cfg.Valid()
  {
    Cost(cfg, cfg.capacity) + Level(cfg, LongWait(cfg)) + 2
  }

  lemma TooDeep(cfg: Config)
    requires cfg.Valid()
    ensures Grants(cfg, Fresh(cfg, 0), 1, Some(LongWait(cfg)), 0)
    ensures !Grants(cfg, Bucket(Reserved(cfg, ManyTimes(cfg))), 1, Some(LongWait(cfg)), 0)
  {
    var wait, times := LongWait(cfg), ManyTimes(cfg);
    DrawOne(cfg, times);
    DrawOne(cfg, 1);
    MulMonotone(1, cfg.amount, wait);
    assert Level(cfg, wait) >= wait by { assert wait * cfg.amount == cfg.amount * wait; }
    assert Level(cfg, 0) == 0;
  }

  lemma {:induction false} SomeOf<K>(s: set<K>, n: nat) returns (t: set<K>)
    requires n <= |s|
    ensures t <= s && |t| == n
  {
    if n == 0 {
      t := {};
    } else {
      var x :| x in s;
      t := SomeOf(s - {x}, n - 1);
      t := t + {x};
    }
  }

  /** Two keys with one hash among more keys than there is room for: the store grants what the ideal one
      refuses. */
  lemma CollisionForgives<K(!new)>(cfg: Config, hash: K -> nat, cap: nat, a: K, b: K, keys: set<K>)
    returns (log: seq<Logged<K>>, states: seq<Snapshot<K>>)
    requires cfg.Valid() && 0 < cap < |keys| && a != b && hash(a) == hash(b)
    ensures Runs(cfg, hash, cap, log, states) && !Safe(cfg, log)
  {
    hide Leads, Steps;
    TooDeep(cfg);
    var wait, times := LongWait(cfg), ManyTimes(cfg);
    TwoFewer(keys, a, b);
    var others := SomeOf(keys - {a} - {b}, cap - 1);
    log, states := ReserveMany(cfg, hash, cap, a, times);
    var s := One(cfg, a, times);
    DrawOne(cfg, times);
    assert s.live.Keys == {a} && |s.live| == 1 && others * s.live.Keys == {};
    log, states, s := FillUp(cfg, hash, cap, log, states, s, a, Reserved(cfg, times), others);
    log, states := PushAndRemove(cfg, hash, cap, log, states, s, a, b, Reserved(cfg, times));
    log, states := ComesBack(cfg, hash, cap, log, states, Snapshot(s.live - {a}, map[]), a, wait, times);
  }

  /** Its debt gone, `a` gets what its ideal bucket would refuse. */
  lemma ComesBack<K(!new)>(cfg: Config, hash: K -> nat, cap: nat, log: seq<Logged<K>>, states: seq<Snapshot<K>>,
                           s: Snapshot<K>, a: K, wait: nat, times: nat)
    returns (more: seq<Logged<K>>, after: seq<Snapshot<K>>)
    requires cfg.Valid() && Leads(cfg, hash, cap, log, states, s, a, Reserved(cfg, times))
    requires a !in s.live && s.owed == map[] && |s.live| < cap
    requires Grants(cfg, Fresh(cfg, 0), 1, Some(wait), 0) && !Grants(cfg, Bucket(Reserved(cfg, times)), 1, Some(wait), 0)
    ensures Runs(cfg, hash, cap, more, after) && !Safe(cfg, more)
  {
    hide Leads;
    var e: Event<K> := Ask(a, 1, Some(wait), Ran(true), s, None);
    var back := s.(live := s.live[a := Drawn(cfg, Fresh(cfg, 0), 1, 0)]);
    assert s.owed - {hash(a)} == s.owed;
    assert Steps(cfg, hash, cap, s, Logged(0, e), back);
    Overgrants(cfg, hash, cap, log, states, s, a, times, e, back);
    more, after := log + [Logged(0, e)], states + [back];
  }

  /** A grant to a key whose ideal bucket would have refused it. */
  lemma Overgrants<K(!new)>(cfg: Config, hash: K -> nat, cap: nat, log: seq<Logged<K>>, states: seq<Snapshot<K>>,
                            s: Snapshot<K>, a: K, times: nat, e: Event<K>, t: Snapshot<K>)
    requires cfg.Valid() && Leads(cfg, hash, cap, log, states, s, a, Reserved(cfg, times))
    requires e.Ask? && e.key == a && e.answer == Ran(true) && Steps(cfg, hash, cap, s, Logged(0, e), t)
    requires !Grants(cfg, Bucket(Reserved(cfg, times)), e.tokens, e.maxWait, 0)
    ensures Runs(cfg, hash, cap, log + [Logged(0, e)], states + [t]) && !Safe(cfg, log + [Logged(0, e)])
  {
    hide Runs, Steps, Grants, Ideal, Charged;
    Extend(cfg, hash, cap, log, states, e, t);
    var more := log + [Logged(0, e)];
    assert more[..|log|] == log;
    assert !Allowed(cfg, Ideal(cfg, more[..|log|]), more[|log|]);
  }

  lemma TwoFewer<K>(keys: set<K>, a: K, b: K)
    ensures |keys - {a} - {b}| >= |keys| - 2
  {
  }

  /** Exactly when a store for `cap` keys refines the ideal one over all runs: no two keys share a hash, or
      there are no more keys than it holds. */
  lemma RefinesIffDistinctOrFew<K(!new)>(cfg: Config, hash: K -> nat, cap: nat)
    requires cfg.Valid() && cap > 0
    ensures Distinct(hash) || Few<K>(cap) <==>
              forall log: seq<Logged<K>>, states: seq<Snapshot<K>> | Runs(cfg, hash, cap, log, states) :: Safe(cfg, log)
  {
    if Distinct(hash) || Few<K>(cap) {
      forall log: seq<Logged<K>>, states: seq<Snapshot<K>> | Runs(cfg, hash, cap, log, states) ensures Safe(cfg, log) {
        RunCovered(cfg, hash, cap, log, states);
      }
    } else {
      var a, b :| hash(a) == hash(b) && a != b;
      var keys: set<K> :| |keys| > cap;
      var log, states := CollisionForgives(cfg, hash, cap, a, b, keys);
    }
  }
}

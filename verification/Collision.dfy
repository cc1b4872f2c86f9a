/** The store itself giving a key more than an ideal store would: the calls behind the exact condition for the
    refinement, made on an actual store of any capacity. */
module Collision {
  import opened Common
  import opened Bucket
  import opened Ledger
  import opened ShardMap
  import opened Store
  import opened StoreRefinement

  /** The slots hold these keys in this order, all used since the hand last passed, and all limited at instant
      zero. */
  ghost predicate AllBusy<K>(slots: seq<Slot<K>>, keys: seq<K>) {
    && |slots| == |keys|
    && forall i | 0 <= i < |keys| :: slots[i].key == keys[i] && slots[i].referenced && slots[i].bucket.full > 0
  }

  /** Among slots that are all limited and in use, the hand picks the first it meets. */
  lemma FirstOfBusy<K>(cfg: Config, slots: seq<Slot<K>>, keys: seq<K>, at: nat)
    requires cfg.Valid() && keys != [] && AllBusy(slots, keys) && IsVictim(cfg, slots, 0, 0, at)
    ensures at == 0
  {
    var ranks := Ranks(cfg, slots, 0, 0);
    assert Level(cfg, 0) == 0;
    forall d | 0 <= d < |ranks| ensures ranks[d] == 3 {
      LosslessIsFull(cfg, slots[Visited(0, |slots|, d)].bucket, 0);
    }
    assert ranks[0] == 3;
  }

  lemma AskIsStep<K(!new)>(cfg: Config, hash: K -> nat, cap: nat, s: Snapshot<K>, e: Event<K>, t: Snapshot<K>)
    requires cfg.Valid() && e.Ask? && Asked(cfg, hash, cap, false, s, 0, e.key, e.tokens, e.maxWait, e.answer, t, e.room, e.victim)
    ensures Steps(cfg, hash, cap, s, Logged(0, e), t)
  {
  }

  method Start<K(==,!new)>(cfg: Config, hash: K -> nat, cap: nat, a: K)
    returns (store: Store<K>, ghost log: seq<Logged<K>>, ghost states: seq<Snapshot<K>>)
    requires cfg.Valid() && 0 < cap <= MAX_SLOTS
    ensures fresh(store) && fresh(store.shard) && fresh(store.shard.ledger) && store.Valid()
    ensures store.cfg == cfg && store.hasher == hash && store.cap == cap && store.idleTtlMs == None && !store.forget
    ensures store.shard.hand == 0 && |store.shard.slots| == 1 && store.shard.slots[0].key == a
    ensures store.Snap() == One(cfg, a, 1) && Leads(cfg, hash, cap, log, states, store.Snap(), a, Reserved(cfg, 1))
  {
    hide Leads, Steps, Asked, Reclaimed, MadeRoom, Shard.Hashed, DebtLedger.Valid, DebtLedger.Owed;
    store := new Store(cfg, hash, cap, None, false);
    ghost var room, victim;
    var answer;
    answer, room, victim := store.WithOrInsert(a, 0, 1, None);
    ghost var e: Event<K> := Ask(a, 1, None, answer, room, victim);
    AskIsStep(cfg, hash, cap, Snapshot(map[], map[]), e, store.Snap());
    FirstReserve(cfg, hash, cap, a, e, store.Snap());
    log, states := [Logged(0, e)], [Snapshot(map[], map[]), store.Snap()];
  }

  /** `a` reserves over and over. */
  method ReserveOften<K(==,!new)>(store: Store<K>, a: K, ghost before: seq<Logged<K>>, ghost past: seq<Snapshot<K>>)
    returns (ghost log: seq<Logged<K>>, ghost states: seq<Snapshot<K>>)
    requires store.Valid() && store.idleTtlMs == None && !store.forget
    requires Leads(store.cfg, store.hasher, store.cap, before, past, store.Snap(), a, Reserved(store.cfg, 1))
    requires store.Snap() == One(store.cfg, a, 1)
    requires store.shard.hand == 0 && |store.shard.slots| == 1 && store.shard.slots[0].key == a
    modifies store.shard, store.shard.ledger
    ensures store.Valid() && store.shard.hand == 0 && AllBusy(store.shard.slots, [a])
    ensures store.Snap() == One(store.cfg, a, ManyTimes(store.cfg))
    ensures Leads(store.cfg, store.hasher, store.cap, log, states, store.Snap(), a, Reserved(store.cfg, ManyTimes(store.cfg)))
  {
    hide Leads, Steps, Asked, Reclaimed, MadeRoom, ManyTimes, Reserved, IsVictim, Shard.Indexed, Shard.Live, Shard.Hashed, DebtLedger.Valid, DebtLedger.Owed;
    ghost var cfg, hash, cap := store.cfg, store.hasher, store.cap;
    Twice(cfg);
    log, states := before, past;
    var times := 1;
    while times < ManyTimes(store.cfg)
      invariant 1 <= times <= ManyTimes(cfg) && store.Valid() && store.Snap() == One(cfg, a, times)
      invariant Leads(cfg, hash, cap, log, states, store.Snap(), a, Reserved(cfg, times))
      invariant store.shard.hand == 0 && |store.shard.slots| == 1 && store.shard.slots[0].key == a
      invariant times > 1 ==> store.shard.slots[0].referenced
    {
      log, states := ReserveAgain(store, a, times, log, states);
      times := times + 1;
    }
    SlotLive(store, 0);
    DrawOne(cfg, times);
    assert Reserved(cfg, times) > 0;
  }

  lemma SlotLive<K(!new)>(store: Store<K>, i: nat)
    requires store.Valid() && i < |store.shard.slots|
    ensures store.shard.slots[i].key in store.Snap().live
    ensures store.Snap().live[store.shard.slots[i].key] == store.shard.slots[i].bucket
  {
  }

  method ReserveAgain<K(==,!new)>(store: Store<K>, a: K, times: nat, ghost before: seq<Logged<K>>, ghost past: seq<Snapshot<K>>)
    returns (ghost log: seq<Logged<K>>, ghost states: seq<Snapshot<K>>)
    requires store.Valid() && store.idleTtlMs == None && !store.forget
    requires Leads(store.cfg, store.hasher, store.cap, before, past, store.Snap(), a, Reserved(store.cfg, times))
    requires store.Snap() == One(store.cfg, a, times)
    requires store.shard.hand == 0 && |store.shard.slots| == 1 && store.shard.slots[0].key == a
    modifies store.shard, store.shard.ledger
    ensures store.Valid() && store.Snap() == One(store.cfg, a, times + 1)
    ensures Leads(store.cfg, store.hasher, store.cap, log, states, store.Snap(), a, Reserved(store.cfg, times + 1))
    ensures store.shard.hand == 0 && |store.shard.slots| == 1 && store.shard.slots[0].key == a && store.shard.slots[0].referenced
  {
    hide Leads, Steps, Asked, Reclaimed, MadeRoom, Reserved, IsVictim, Shard.Hashed, DebtLedger.Valid, DebtLedger.Owed;
    ghost var cfg, hash, cap := store.cfg, store.hasher, store.cap;
    ghost var s := store.Snap();
    ghost var room, victim;
    var answer;
    answer, room, victim := store.WithOrInsert(a, 0, 1, None);
    ghost var e: Event<K> := Ask(a, 1, None, answer, room, victim);
    AskIsStep(cfg, hash, cap, s, e, store.Snap());
    ReserveOnce(cfg, hash, cap, before, past, a, times, e, store.Snap());
    log, states := before + [Logged(0, e)], past + [store.Snap()];
  }

  lemma Twice(cfg: Config)
    requires cfg.Valid()
    ensures ManyTimes(cfg) >= 2
  {
  }

  lemma NewcomerLimited<K(!new)>(cfg: Config, hash: K -> nat, cap: nat, s: Snapshot<K>, c: K, answer: Answer,
                                 t: Snapshot<K>, room: Snapshot<K>)
    requires cfg.Valid() && Asked(cfg, hash, cap, false, s, 0, c, 1, None, answer, t, room, None) && answer.Ran?
    requires c !in s.live && s.owed == map[]
    ensures t.owed == map[] && c in t.live && t.live[c].full > 0
  {
    DrawOne(cfg, 0);
    DrawOne(cfg, 1);
  }

  lemma ReturnerLimited<K(!new)>(cfg: Config, hash: K -> nat, cap: nat, s: Snapshot<K>, c: K, answer: Answer,
                                 t: Snapshot<K>, room: Snapshot<K>, victim: Option<K>)
    requires cfg.Valid() && Asked(cfg, hash, cap, false, s, 0, c, 1, None, answer, t, room, victim)
    requires c in s.live && s.live[c].full > 0
    ensures t.owed == s.owed && c in t.live && t.live[c].full > 0
  {
  }

  /** A newcomer finds room. */
  method ComeIn<K(==,!new)>(store: Store<K>, a: K, c: K, ghost keys: seq<K>, ghost full: int,
                            ghost before: seq<Logged<K>>, ghost past: seq<Snapshot<K>>)
    returns (ghost log: seq<Logged<K>>, ghost states: seq<Snapshot<K>>)
    requires store.Valid() && store.idleTtlMs == None && !store.forget
    requires Leads(store.cfg, store.hasher, store.cap, before, past, store.Snap(), a, full)
    requires store.shard.hand == 0 && AllBusy(store.shard.slots, keys) && |keys| < store.cap
    requires c !in keys && c != a && store.Snap().owed == map[]
    modifies store.shard, store.shard.ledger
    ensures store.Valid() && store.shard.hand == 0 && store.Snap().owed == map[]
    ensures |store.shard.slots| == |keys| + 1 && AllBusy(store.shard.slots[..|keys|], keys)
    ensures store.shard.slots[|keys|].key == c && c in store.Snap().live && store.Snap().live[c].full > 0
    ensures Leads(store.cfg, store.hasher, store.cap, log, states, store.Snap(), a, full)
  {
    hide Leads, Steps, Reclaimed, Asked, MadeRoom, IsVictim, Shard.Hashed, DebtLedger.Valid, DebtLedger.Owed;
    ghost var cfg, hash, cap := store.cfg, store.hasher, store.cap;
    ghost var s := store.Snap();
    assert c !in s.live;
    ghost var room, victim;
    var answer;
    answer, room, victim := store.WithOrInsert(c, 0, 1, None);
    ghost var e: Event<K> := Ask(c, 1, None, answer, room, victim);
    NewcomerLimited(cfg, hash, cap, s, c, answer, store.Snap(), room);
    AskIsStep(cfg, hash, cap, s, e, store.Snap());
    LeadsOn(cfg, hash, cap, before, past, s, a, full, e, store.Snap());
    log, states := before + [Logged(0, e)], past + [store.Snap()];
  }

  /** It comes a second time, so that it counts as in use. */
  method ComeAgain<K(==,!new)>(store: Store<K>, a: K, c: K, ghost keys: seq<K>, ghost full: int,
                               ghost before: seq<Logged<K>>, ghost past: seq<Snapshot<K>>)
    returns (ghost log: seq<Logged<K>>, ghost states: seq<Snapshot<K>>)
    requires store.Valid() && store.idleTtlMs == None && !store.forget
    requires Leads(store.cfg, store.hasher, store.cap, before, past, store.Snap(), a, full)
    requires store.shard.hand == 0 && |store.shard.slots| == |keys| + 1 && AllBusy(store.shard.slots[..|keys|], keys)
    requires store.shard.slots[|keys|].key == c && c in store.Snap().live && store.Snap().live[c].full > 0
    requires c !in keys && c != a && store.Snap().owed == map[]
    modifies store.shard, store.shard.ledger
    ensures store.Valid() && store.shard.hand == 0 && AllBusy(store.shard.slots, keys + [c]) && store.Snap().owed == map[]
    ensures Leads(store.cfg, store.hasher, store.cap, log, states, store.Snap(), a, full)
  {
    hide Leads, Steps, Reclaimed, Asked, MadeRoom, IsVictim, Shard.Hashed, DebtLedger.Valid, DebtLedger.Owed;
    ghost var cfg, hash, cap := store.cfg, store.hasher, store.cap;
    ghost var s, slots0 := store.Snap(), store.shard.slots;
    ghost var room, victim;
    var answer;
    answer, room, victim := store.WithOrInsert(c, 0, 1, None);
    ghost var e: Event<K> := Ask(c, 1, None, answer, room, victim);
    ReturnerLimited(cfg, hash, cap, s, c, answer, store.Snap(), room, victim);
    AskIsStep(cfg, hash, cap, s, e, store.Snap());
    LeadsOn(cfg, hash, cap, before, past, s, a, full, e, store.Snap());
    log, states := before + [Logged(0, e)], past + [store.Snap()];
    assert store.Snap().live[c] == store.shard.slots[|keys|].bucket;
    BusyAgain(slots0, store.shard.slots, keys, c);
  }

  lemma BusyAgain<K>(before: seq<Slot<K>>, after: seq<Slot<K>>, keys: seq<K>, c: K)
    requires |before| == |after| == |keys| + 1 && AllBusy(before[..|keys|], keys) && c !in keys && before[|keys|].key == c
    requires forall i | 0 <= i < |before| ::
               after[i].key == before[i].key && (if before[i].key == c then after[i].referenced else after[i] == before[i])
    requires after[|keys|].bucket.full > 0
    ensures AllBusy(after, keys + [c])
  {
    forall i | 0 <= i < |keys| ensures after[i] == before[..|keys|][i] {}
  }

  /** `b` pushes the limited `a` out, and is removed. */
  method PushAndForget<K(==,!new)>(store: Store<K>, a: K, b: K, ghost keys: seq<K>, ghost full: int,
                                   ghost before: seq<Logged<K>>, ghost past: seq<Snapshot<K>>)
    returns (ghost log: seq<Logged<K>>, ghost states: seq<Snapshot<K>>)
    requires store.Valid() && store.idleTtlMs == None && !store.forget
    requires Leads(store.cfg, store.hasher, store.cap, before, past, store.Snap(), a, full)
    requires store.shard.hand == 0 && AllBusy(store.shard.slots, keys) && |keys| == store.cap && keys[0] == a
    requires a != b && store.hasher(a) == store.hasher(b) && b !in keys && store.Snap().owed == map[]
    modifies store.shard, store.shard.ledger
    ensures store.Valid() && a !in store.Snap().live && store.Snap().owed == map[] && |store.Snap().live| < store.cap
    ensures Leads(store.cfg, store.hasher, store.cap, log, states, store.Snap(), a, full)
  {
    hide Leads, Steps, Reclaimed, Asked, Shard.Hashed, DebtLedger.Valid, DebtLedger.Owed;
    ghost var cfg, hash, cap := store.cfg, store.hasher, store.cap;
    ghost var s, slots0 := store.Snap(), store.shard.slots;
    assert b !in s.live;
    ghost var room, victim;
    var answer;
    answer, room, victim := store.WithOrInsert(b, 0, 1, None);
    ghost var e: Event<K> := Ask(b, 1, None, answer, room, victim);
    NoDebtNoRefusal(cfg, hash, cap, s, b, answer, store.Snap(), room, victim);
    BusyVictim(store, slots0, keys, victim);
    Pushed(cfg, hash, cap, s, a, b, answer, store.Snap(), room);
    AskIsStep(cfg, hash, cap, s, e, store.Snap());
    LeadsOn(cfg, hash, cap, before, past, s, a, full, e, store.Snap());
    log, states := before + [Logged(0, e)], past + [store.Snap()];
    ghost var t := store.Snap();
    var known := store.Remove(b);
    RemoveIsStep(cfg, hash, cap, t, b);
    LeadsOn(cfg, hash, cap, log, states, t, a, full, Event<K>.Remove(b), store.Snap());
    log, states := log + [Logged(0, Event<K>.Remove(b))], states + [store.Snap()];
  }

  lemma NoDebtNoRefusal<K(!new)>(cfg: Config, hash: K -> nat, cap: nat, s: Snapshot<K>, b: K, answer: Answer,
                                 t: Snapshot<K>, room: Snapshot<K>, victim: Option<K>)
    requires cfg.Valid() && cap > 0 && Asked(cfg, hash, cap, false, s, 0, b, 1, None, answer, t, room, victim)
    requires b !in s.live && s.owed == map[]
    ensures answer.Ran?
  {
    if answer.NoRoom? { NothingOwed(cfg, hash, cap, s, b, room); }
  }

  lemma NothingOwed<K(!new)>(cfg: Config, hash: K -> nat, cap: nat, s: Snapshot<K>, b: K, room: Snapshot<K>)
    requires cfg.Valid() && s.owed == map[] && MadeRoom(cfg, hash, cap, s.(owed := s.owed - {hash(b)}), 0, false, room, None)
    ensures room.owed == map[]
  {
  }

  lemma BusyVictim<K(!new)>(store: Store<K>, slots: seq<Slot<K>>, keys: seq<K>, victim: Option<K>)
    requires store.cfg.Valid() && keys != [] && AllBusy(slots, keys) && store.PicksVictim(slots, 0, 0, victim)
    ensures victim == Some(keys[0])
  {
    var at: nat :| IsVictim(store.cfg, slots, 0, 0, at)
      && var slot := slots[Visited(0, |slots|, at)]; victim == if Lossless(store.cfg, slot.bucket, 0) then None else Some(slot.key);
    FirstOfBusy(store.cfg, slots, keys, at);
    assert Level(store.cfg, 0) == 0;
    LosslessIsFull(store.cfg, slots[0].bucket, 0);
  }

  lemma Pushed<K(!new)>(cfg: Config, hash: K -> nat, cap: nat, s: Snapshot<K>, a: K, b: K, answer: Answer,
                        t: Snapshot<K>, room: Snapshot<K>)
    requires cfg.Valid() && cap > 0 && Asked(cfg, hash, cap, false, s, 0, b, 1, None, answer, t, room, Some(a)) && answer.Ran?
    requires b !in s.live && a != b && hash(a) == hash(b) && s.owed == map[]
    ensures a !in t.live && t.owed - {hash(b)} == map[] && |t.live - {b}| < cap
  {
    assert t.live - {b} == room.live by { assert b !in room.live; }
  }

  /** `others` come and stay. */
  method FillStore<K(==,!new)>(store: Store<K>, a: K, others: seq<K>, ghost full: int,
                               ghost before: seq<Logged<K>>, ghost past: seq<Snapshot<K>>)
    returns (ghost log: seq<Logged<K>>, ghost states: seq<Snapshot<K>>)
    requires store.Valid() && store.idleTtlMs == None && !store.forget && |others| < store.cap
    requires Leads(store.cfg, store.hasher, store.cap, before, past, store.Snap(), a, full)
    requires store.shard.hand == 0 && AllBusy(store.shard.slots, [a]) && store.Snap().owed == map[]
    requires a !in others && forall i, j | 0 <= i < j < |others| :: others[i] != others[j]
    modifies store.shard, store.shard.ledger
    ensures store.Valid() && store.shard.hand == 0 && AllBusy(store.shard.slots, [a] + others) && store.Snap().owed == map[]
    ensures Leads(store.cfg, store.hasher, store.cap, log, states, store.Snap(), a, full)
  {
    hide Leads, AllBusy, Shard.Indexed, Shard.Live, Shard.Hashed, DebtLedger.Valid, DebtLedger.Owed;
    log, states := before, past;
    assert [a] + others[..0] == [a];
    for i := 0 to |others|
      invariant store.Valid() && store.shard.hand == 0 && AllBusy(store.shard.slots, [a] + others[..i]) && store.Snap().owed == map[]
      invariant Leads(store.cfg, store.hasher, store.cap, log, states, store.Snap(), a, full)
    {
      assert others[i] !in [a] + others[..i];
      log, states := ComeIn(store, a, others[i], [a] + others[..i], full, log, states);
      log, states := ComeAgain(store, a, others[i], [a] + others[..i], full, log, states);
      assert [a] + others[..i] + [others[i]] == [a] + others[..i + 1];
    }
    assert others[..|others|] == others;
  }

  /** On a store of any capacity, with any configuration: given two keys with one hash and enough others to
      fill it up, these calls end with a grant that the ideal store refuses. */
  method Overshoot<K(==,!new)>(cfg: Config, hash: K -> nat, cap: nat, a: K, b: K, others: seq<K>)
    returns (answer: Answer, ghost log: seq<Logged<K>>, ghost states: seq<Snapshot<K>>)
    requires cfg.Valid() && 0 < cap <= MAX_SLOTS && |others| == cap - 1
    requires a != b && hash(a) == hash(b) && a !in others && b !in others
    requires forall i, j | 0 <= i < j < |others| :: others[i] != others[j]
    ensures answer == Ran(true)
    ensures Runs(cfg, hash, cap, log, states) && !Safe(cfg, log)
  {
    hide Leads, Runs, Safe, Asked, Grants, Reclaimed, Reserved, ManyTimes, LongWait, MadeRoom, IsVictim, Shard.Hashed, DebtLedger.Valid, DebtLedger.Owed;
    var store;
    store, log, states := Start(cfg, hash, cap, a);
    log, states := ReserveOften(store, a, log, states);
    ghost var full := Reserved(cfg, ManyTimes(cfg));
    log, states := FillStore(store, a, others, full, log, states);
    log, states := PushAndForget(store, a, b, [a] + others, full, log, states);
    ghost var s := store.Snap();
    ghost var room, victim;
    answer, room, victim := store.WithOrInsert(a, 0, 1, Some(LongWait(cfg)));
    ghost var e: Event<K> := Ask(a, 1, Some(LongWait(cfg)), answer, room, victim);
    TooDeep(cfg);
    FreshGrants(cfg, hash, cap, s, a, answer, store.Snap(), room, victim);
    AskIsStep(cfg, hash, cap, s, e, store.Snap());
    Overgrants(cfg, hash, cap, log, states, s, a, ManyTimes(cfg), e, store.Snap());
    log, states := log + [Logged(0, e)], states + [store.Snap()];
  }

  lemma FreshGrants<K(!new)>(cfg: Config, hash: K -> nat, cap: nat, s: Snapshot<K>, a: K, answer: Answer,
                             t: Snapshot<K>, room: Snapshot<K>, victim: Option<K>)
    requires cfg.Valid() && cap > 0 && a !in s.live && s.owed == map[]
    requires Asked(cfg, hash, cap, false, s, 0, a, 1, Some(LongWait(cfg)), answer, t, room, victim)
    requires Grants(cfg, Fresh(cfg, 0), 1, Some(LongWait(cfg)), 0)
    ensures answer == Ran(true)
  {
    if answer.NoRoom? { NothingOwed(cfg, hash, cap, s, a, room); }
  }
}

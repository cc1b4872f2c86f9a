/** The bounded per-key store: what one call may do to it, and the calls themselves. */
module Store {
  import opened Common
  import opened Bucket
  import opened Ledger
  import opened ShardMap

  const MAX_SLOTS: nat := 0xFFFF_FFFF
  const NANOS_PER_MILLI: nat := 1_000_000

  /** What the store remembers: live buckets by key, debts by key hash. */
  datatype Snapshot<K> = Snapshot(live: map<K, Bucket>, owed: map<nat, nat>)

  datatype Answer = Ran(granted: bool) | NoRoom(wait: nat)

  /** What the next request for `key` will find: its live bucket, or a fresh one less what it owes. */
  function Seen<K>(cfg: Config, hash: K -> nat, s: Snapshot<K>, key: K, now: nat): Bucket
    requires cfg.Valid()
  {
    if key in s.live then s.live[key]
    else if hash(key) in s.owed then Restored(cfg, now, s.owed[hash(key)])
    else Fresh(cfg, now)
  }

  /** Making room forgets full buckets and settled debts, and at most one limited key, the victim: only out of
      a full shard, and with its debt written down, to settle when its bucket would have been full or when a debt
      under its hash does, if that is later (only with `forget` may an unsettled debt go). */
  ghost predicate MadeRoom<K(!new)>(cfg: Config, hash: K -> nat, cap: nat, s: Snapshot<K>, now: nat, forget: bool,
                                    t: Snapshot<K>, victim: Option<K>)
    requires cfg.Valid()
  {
    && (forall k <- t.live :: k in s.live && t.live[k] == s.live[k])
    && (forall k <- s.live :: k in t.live || victim == Some(k) || Lossless(cfg, s.live[k], now))
    && (victim.Some? ==>
          && victim.value in s.live && victim.value !in t.live && |t.live| == cap - 1
          && !Lossless(cfg, s.live[victim.value], now)
          && hash(victim.value) in t.owed && t.owed[hash(victim.value)] == DebtOf(cfg, hash, s, victim.value))
    && (forall h <- t.owed :: (h in s.owed && t.owed[h] == s.owed[h]) || (victim.Some? && h == hash(victim.value)))
    && (forall h <- s.owed :: (h in t.owed && t.owed[h] >= s.owed[h]) || s.owed[h] <= now || forget)
  }

  /** When the debt of an evicted key settles. */
  function DebtOf<K>(cfg: Config, hash: K -> nat, s: Snapshot<K>, key: K): nat
    requires cfg.Valid() && key in s.live
  {
    Max(if hash(key) in s.owed then s.owed[hash(key)] else 0, FirstFull(cfg, s.live[key]))
  }

  lemma RoomAfterRoom<K(!new)>(cfg: Config, hash: K -> nat, cap: nat, s: Snapshot<K>, m: Snapshot<K>, now: nat, forget: bool,
                               t: Snapshot<K>, victim: Option<K>)
    requires cfg.Valid() && MadeRoom(cfg, hash, cap, s, now, false, m, None) && MadeRoom(cfg, hash, cap, m, now, forget, t, victim)
    ensures MadeRoom(cfg, hash, cap, s, now, forget, t, victim)
  {
    if victim.Some? { LimitedRecovers(cfg, m.live[victim.value], now); }
  }

  /** A key that goes, losslessly or into the ledger, makes room. */
  lemma EvictionMakesRoom<K(!new)>(cfg: Config, hash: K -> nat, cap: nat, s: Snapshot<K>, t: Snapshot<K>, key: K, now: nat, forget: bool)
    requires cfg.Valid() && key in s.live && t.live == s.live - {key} && |t.live| == cap - 1
    requires if Lossless(cfg, s.live[key], now) then t.owed == s.owed
             else Ledgered(cfg, s.owed, t.owed, hash(key), s.live[key], now, forget)
    ensures MadeRoom(cfg, hash, cap, s, now, forget, t, if Lossless(cfg, s.live[key], now) then None else Some(key))
  {
    hide Lossless, FirstFull;
  }

  lemma NothingMakesRoom<K(!new)>(cfg: Config, hash: K -> nat, cap: nat, s: Snapshot<K>, now: nat, forget: bool)
    requires cfg.Valid()
    ensures MadeRoom(cfg, hash, cap, s, now, forget, s, None)
  {
  }

  /** A request that runs on a key without state sees the bucket its debt leaves it, in a store with room
      made; a refused one only makes room. */
  ghost predicate Asked<K(!new)>(cfg: Config, hash: K -> nat, cap: nat, forget: bool, s: Snapshot<K>, now: nat,
                                 key: K, tokens: nat, maxWait: Option<nat>, answer: Answer,
                                 t: Snapshot<K>, room: Snapshot<K>, victim: Option<K>)
    requires cfg.Valid()
  {
    var (granted, bucket) := Take(cfg, Seen(cfg, hash, s, key, now), tokens, maxWait, now);
    if key in s.live then answer == Ran(granted) && t == s.(live := s.live[key := bucket])
    else
      && MadeRoom(cfg, hash, cap, s.(owed := s.owed - {hash(key)}), now, forget, room, victim)
      && match answer
         case Ran(g) => g == granted && |room.live| < cap && t == room.(live := room.live[key := bucket])
         case NoRoom(_) => hash(key) !in s.owed && victim == None && t == room && |room.live| == |room.owed| == cap
  }

  /** A refund goes to the live bucket, else to the debt, else nowhere. */
  function Refunded<K>(cfg: Config, hash: K -> nat, s: Snapshot<K>, key: K, tokens: nat): Snapshot<K>
    requires cfg.Valid()
  {
    if key in s.live then s.(live := s.live[key := Refund(cfg, s.live[key], tokens)])
    else if hash(key) in s.owed then s.(owed := s.owed[hash(key) := PaidDown(cfg, s.owed[hash(key)], tokens)])
    else s
  }

  function Forgotten<K>(hash: K -> nat, s: Snapshot<K>, key: K): Snapshot<K> {
    Snapshot(s.live - {key}, s.owed - {hash(key)})
  }

  /** Only a live bucket is reset: it is full as of now. */
  function Renewed<K>(cfg: Config, s: Snapshot<K>, key: K, now: nat): Snapshot<K> {
    if key in s.live then s.(live := s.live[key := Bucket(Level(cfg, now))]) else s
  }

  class Store<K(==,!new)> {
    const cfg: Config
    const hasher: K -> nat
    const cap: nat
    const idleTtlMs: Option<nat>
    const forget: bool
    const shard: Shard<K>

    constructor (cfg: Config, hasher: K -> nat, cap: nat, idleTtlMs: Option<nat>, forget: bool)
      requires cfg.Valid() && 0 < cap <= MAX_SLOTS
      ensures this.cfg == cfg && this.hasher == hasher && this.cap == cap && this.idleTtlMs == idleTtlMs && this.forget == forget
      ensures fresh(shard) && fresh(shard.ledger) && Valid() && Snap() == Snapshot(map[], map[])
      ensures shard.slots == [] && shard.hand == 0
    {
      this.cfg, this.hasher, this.cap, this.idleTtlMs, this.forget := cfg, hasher, cap, idleTtlMs, forget;
      shard := new Shard(cfg, hasher);
    }

    /** Indexes agree, and neither the live keys nor the debts pass the shard's cap. */
    ghost predicate Valid()
      reads this, shard, shard.ledger
    {
      && shard.Valid() && shard.cfg == cfg && shard.hasher == hasher && 0 < cap <= MAX_SLOTS
      && |shard.slots| <= cap && |shard.ledger.debts| <= cap
    }

    ghost function Snap(): Snapshot<K>
      requires shard.Indexed() && shard.ledger.Valid()
      reads this, shard, shard.ledger
    {
      Snapshot(shard.Live(), shard.ledger.Owed())
    }

    /** The slots the idle sweep leaves. */
    ghost function SweptSlots(slots: seq<Slot<K>>, sweep: nat, now: nat): seq<Slot<K>>
      requires cfg.Valid()
    {
      if idleTtlMs.Some? then Reclaimed(cfg, slots, sweep, now, now / NANOS_PER_MILLI, idleTtlMs.value, TTL_SWEEP).0 else slots
    }

    /** How long a key that finds no room is told to wait: until, of what the sweeps leave, the first visited slot
        recovers or the first scanned debt settles. */
    ghost function Patience(slots: seq<Slot<K>>, sweep: nat, hand: nat, debts: seq<Debt>, cursor: nat, now: nat): nat
      requires cfg.Valid()
    {
      var (left, next) := Swept(debts, cursor, now, LEDGER_SCAN);
      RefusalWait(Recoveries(cfg, SweptSlots(slots, sweep, now), hand, now), SettleTimes(left, next), now)
    }

    /** The victim is the slot the CLOCK hand picks, if that one is limited. */
    ghost predicate PicksVictim(slots: seq<Slot<K>>, hand: nat, now: nat, victim: Option<K>)
      requires cfg.Valid()
    {
      exists at: nat :: IsVictim(cfg, slots, hand, now, at)
        && var slot := slots[Visited(hand, |slots|, at)]; victim == if Lossless(cfg, slot.bucket, now) then None else Some(slot.key)
    }

    /** Only the slot of `key` changed, and it is marked used. */
    ghost predicate MarksUsed(before: seq<Slot<K>>, after: seq<Slot<K>>, key: K) {
      && |after| == |before|
      && forall i | 0 <= i < |before| ::
           after[i].key == before[i].key && (if before[i].key == key then after[i].referenced else after[i] == before[i])
    }

    /** A request for `key`. The key is created if need be, in a store with room made for it; `room` is what
        the store was when the room was made, and `victim` the limited key that had to go. */
    method WithOrInsert(key: K, now: nat, tokens: nat, maxWait: Option<nat>)
      returns (answer: Answer, ghost room: Snapshot<K>, ghost victim: Option<K>)
      requires Valid()
      modifies shard, shard.ledger
      ensures Valid()
      ensures Asked(cfg, hasher, cap, forget, old(Snap()), now, key, tokens, maxWait, answer, Snap(), room, victim)
      ensures answer.NoRoom? ==> !forget && answer.wait >= MIN_REFUSAL_WAIT && |shard.slots| == cap && |shard.ledger.debts| == cap
      ensures answer.NoRoom? ==>
                answer.wait == Patience(old(shard.slots), old(shard.sweep), old(shard.hand), old(shard.ledger.debts), old(shard.ledger.cursor), now)
      ensures answer.Ran? && key !in old(Snap()).live ==>
                && shard.slots != []
                && var slot := shard.slots[|shard.slots| - 1];
                   slot.key == key && !slot.referenced && slot.lastSeen == now / NANOS_PER_MILLI
      ensures key in old(Snap()).live ==> MarksUsed(old(shard.slots), shard.slots, key) && shard.hand == old(shard.hand)
      ensures key !in old(Snap()).live ==>
                var swept := SweptSlots(old(shard.slots), old(shard.sweep), now);
                && (|swept| < cap ==> answer.Ran? && shard.slots != [] && victim.None? && shard.hand == old(shard.hand) && shard.slots[..|shard.slots| - 1] == swept)
                && (|swept| == cap && answer.Ran? ==> PicksVictim(swept, old(shard.hand), now, victim))
    {
      hide MadeRoom, PicksVictim, SweptSlots, Patience, Take, Shard.Hashed, DebtLedger.Valid, DebtLedger.Owed;
      room, victim := Snap(), None;
      var nowMs := now / NANOS_PER_MILLI;
      var pos := shard.Position(key);
      if pos.Some? {
        var granted := Touch(pos.value, now, nowMs, tokens, maxWait);
        return Ran(granted), room, victim;
      }
      answer, room, victim := Create(key, now, nowMs, tokens, maxWait);
    }

    /** The slow path, for a key without state: takes the debt it left, makes room, and appends it. */
    method Create(key: K, now: nat, nowMs: nat, tokens: nat, maxWait: Option<nat>)
      returns (answer: Answer, ghost room: Snapshot<K>, ghost victim: Option<K>)
      requires Valid() && key !in Snap().live && nowMs == now / NANOS_PER_MILLI
      modifies shard, shard.ledger
      ensures Valid()
      ensures Asked(cfg, hasher, cap, forget, old(Snap()), now, key, tokens, maxWait, answer, Snap(), room, victim)
      ensures answer.NoRoom? ==> !forget && answer.wait >= MIN_REFUSAL_WAIT && |shard.slots| == cap && |shard.ledger.debts| == cap
      ensures answer.NoRoom? ==>
                answer.wait == Patience(old(shard.slots), old(shard.sweep), old(shard.hand), old(shard.ledger.debts), old(shard.ledger.cursor), now)
      ensures answer.Ran? ==>
                && shard.slots != []
                && var slot := shard.slots[|shard.slots| - 1];
                   slot.key == key && !slot.referenced && slot.lastSeen == nowMs
      ensures var swept := SweptSlots(old(shard.slots), old(shard.sweep), now);
              && (|swept| < cap ==> answer.Ran? && victim.None? && shard.hand == old(shard.hand) && shard.slots[..|shard.slots| - 1] == swept)
              && (|swept| == cap && answer.Ran? ==> PicksVictim(swept, old(shard.hand), now, victim))
    {
      hide MadeRoom, PicksVictim, SweptSlots, Patience, Take, Restored, Fresh, Shard.Indexed, Shard.Hashed, Shard.Live, DebtLedger.Valid, DebtLedger.Owed;
      var owed := shard.ledger.Collect(hasher(key));
      ghost var collected := Snap();
      assert collected == old(Snap()).(owed := old(Snap()).owed - {hasher(key)});
      var refused;
      refused, victim := MakeRoom(now, nowMs);
      room := Snap();
      RoomKeepsOut(collected, now, room, victim, key);
      shard.Size();
      shard.ledger.Size();
      if refused.Some? {
        // A collected debt leaves a free place in the ledger, so there is never one to put back.
        assert owed.None?;
        return NoRoom(refused.value), room, victim;
      }
      var bucket := Fresh(cfg, now);
      if owed.Some? {
        bucket := RestoreDebt(cfg, now, owed.value);
      }
      assert bucket == Seen(cfg, hasher, old(Snap()), key, now);
      var (granted, after) := Take(cfg, bucket, tokens, maxWait, now);
      shard.Insert(Slot(hasher(key), key, after, false, nowMs));
      answer := Ran(granted);
    }

    lemma RoomKeepsOut(s: Snapshot<K>, now: nat, room: Snapshot<K>, victim: Option<K>, key: K)
      requires cfg.Valid() && MadeRoom(cfg, hasher, cap, s, now, forget, room, victim) && key !in s.live
      ensures key !in room.live
    {
    }

    /** The fast path: marks the slot used and runs the operation on its bucket. */
    method Touch(pos: nat, now: nat, nowMs: nat, tokens: nat, maxWait: Option<nat>) returns (granted: bool)
      requires Valid() && pos < |shard.slots|
      modifies shard`slots
      ensures Valid()
      ensures var slot := old(shard.slots)[pos];
              && granted == Take(cfg, slot.bucket, tokens, maxWait, now).0
              && Snap() == old(Snap()).(live := old(Snap()).live[slot.key := Take(cfg, slot.bucket, tokens, maxWait, now).1])
              && shard.slots == old(shard.slots)[pos := shard.slots[pos]] && shard.slots[pos].referenced
              && shard.slots[pos].lastSeen == if idleTtlMs.Some? then Max(slot.lastSeen, nowMs) else slot.lastSeen
    {
      var slot := shard.slots[pos];
      var (ok, bucket) := Take(cfg, slot.bucket, tokens, maxWait, now);
      granted := ok;
      var seen := if idleTtlMs.Some? && slot.lastSeen < nowMs then nowMs else slot.lastSeen;
      shard.Store(pos, slot.(bucket := bucket, referenced := true, lastSeen := seen));
    }

    /** Leaves at least one place free, or refuses: the sweeps may free one, and failing that an eviction. */
    method MakeRoom(now: nat, nowMs: nat) returns (refused: Option<nat>, ghost victim: Option<K>)
      requires Valid() && nowMs == now / NANOS_PER_MILLI
      modifies shard, shard.ledger
      ensures Valid() && |shard.slots| <= |old(shard.slots)| && |shard.ledger.debts| <= Max(|old(shard.ledger.debts)|, cap)
      ensures var swept := SweptSlots(old(shard.slots), old(shard.sweep), now);
              if |swept| < cap then refused.None? && victim.None? && shard.slots == swept && shard.hand == old(shard.hand)
              else refused.None? ==> PicksVictim(swept, old(shard.hand), now, victim)
      ensures MadeRoom(cfg, hasher, cap, old(Snap()), now, forget, Snap(), victim)
      ensures refused.None? ==> |shard.slots| < cap
      ensures refused.Some? ==>
                && refused.value == Patience(old(shard.slots), old(shard.sweep), old(shard.hand), old(shard.ledger.debts), old(shard.ledger.cursor), now)
                && refused.value >= MIN_REFUSAL_WAIT && victim.None? && !forget
                && |shard.slots| == cap && |shard.ledger.debts| == cap && |old(shard.ledger.debts)| == cap
    {
      hide MadeRoom, PicksVictim, SweptSlots, Swept, RefusalWait, Recoveries, SettleTimes, Shard.Indexed, Shard.Hashed, Shard.Live, DebtLedger.Valid, DebtLedger.Owed;
      Sweeps(now, nowMs);
      ghost var swept := Snap();
      refused, victim := None, None;
      if |shard.slots| >= cap {
        refused, victim := Evict(now);
      }
      RoomAfterRoom(cfg, hasher, cap, old(Snap()), swept, now, forget, Snap(), victim);
    }

    method Sweeps(now: nat, nowMs: nat)
      requires Valid() && nowMs == now / NANOS_PER_MILLI
      modifies shard`index, shard`slots, shard`sweep, shard.ledger
      ensures Valid() && |shard.slots| <= |old(shard.slots)| && |shard.ledger.debts| <= |old(shard.ledger.debts)|
      ensures shard.slots == SweptSlots(old(shard.slots), old(shard.sweep), now)
      ensures MadeRoom(cfg, hasher, cap, old(Snap()), now, false, Snap(), None)
      ensures (shard.ledger.debts, shard.ledger.cursor) == Swept(old(shard.ledger.debts), old(shard.ledger.cursor), now, LEDGER_SCAN)
      ensures shard.hand == old(shard.hand)
    {
      if idleTtlMs.Some? {
        var reclaimed := shard.SweepIdle(now, nowMs, idleTtlMs.value, TTL_SWEEP);
      }
      shard.ledger.Sweep(now, LEDGER_SCAN);
    }

    method Evict(now: nat) returns (refused: Option<nat>, ghost victim: Option<K>)
      requires Valid() && |shard.slots| == cap
      modifies shard, shard.ledger
      ensures Valid()
      ensures MadeRoom(cfg, hasher, cap, old(Snap()), now, forget, Snap(), victim)
      ensures |shard.slots| == |old(shard.slots)| - if refused.None? then 1 else 0
      ensures refused.None? ==> PicksVictim(old(shard.slots), old(shard.hand), now, victim)
      ensures refused.Some? ==>
                && refused.value == RefusalWait(Recoveries(cfg, old(shard.slots), old(shard.hand), now),
                                                SettleTimes(old(shard.ledger.debts), old(shard.ledger.cursor)), now)
                && refused.value >= MIN_REFUSAL_WAIT && victim.None? && !forget && |old(shard.ledger.debts)| == |shard.ledger.debts| == cap
    {
      hide Recoveries, SettleTimes, Visited, Lossless, RankAt, Ledgered, MadeRoom, DebtLedger.Valid, DebtLedger.Owed;
      ghost var at;
      ghost var before, slots0, hand0 := Snap(), shard.slots, shard.hand;
      refused, at := shard.EvictOne(now, cap, forget);
      ghost var slot := slots0[Visited(hand0, |slots0|, at)];
      victim := if refused.None? && !Lossless(cfg, slot.bucket, now) then Some(slot.key) else None;
      shard.Size();
      if refused.None? {
        EvictionMakesRoom(cfg, hasher, cap, before, Snap(), slot.key, now, forget);
      } else {
        NothingMakesRoom(cfg, hasher, cap, before, now, forget);
      }
    }

    /** The bucket the key's next acquire will see. */
    method View(key: K, now: nat) returns (bucket: Bucket)
      requires Valid()
      ensures bucket == Seen(cfg, hasher, Snap(), key, now)
    {
      var pos := shard.Position(key);
      if pos.Some? {
        return shard.slots[pos.value].bucket;
      }
      bucket := Fresh(cfg, now);
      var debt := shard.ledger.Position(hasher(key));
      if debt.Some? {
        bucket := RestoreDebt(cfg, now, shard.ledger.debts[debt.value].settlesAt);
      }
    }

    /** A refund for `key`. The live bucket gets it if there is one, and what the key owes otherwise. */
    method GiveBack(key: K, tokens: nat) returns (known: bool)
      requires Valid()
      modifies shard, shard.ledger
      ensures Valid()
      ensures Snap() == Refunded(cfg, hasher, old(Snap()), key, tokens)
      ensures known == (key in old(Snap()).live || hasher(key) in old(Snap()).owed)
    {
      var pos := shard.Position(key);
      if pos.Some? {
        var slot := shard.slots[pos.value];
        shard.Store(pos.value, slot.(bucket := Refund(cfg, slot.bucket, tokens)));
        return true;
      }
      known := shard.ledger.PayDown(cfg, hasher(key), tokens);
    }

    /** Afterwards the store knows nothing of `key`, nor of anything owed under its hash. */
    method Remove(key: K) returns (known: bool)
      requires Valid()
      modifies shard, shard.ledger
      ensures Valid()
      ensures Snap() == Forgotten(hasher, old(Snap()), key)
      ensures known == (key in old(Snap()).live || hasher(key) in old(Snap()).owed)
    {
      var debt := shard.ledger.Collect(hasher(key));
      var pos := shard.Position(key);
      if pos.Some? {
        shard.Discard(pos.value);
      }
      known := pos.Some? || debt.Some?;
    }

    /** Refills a live key's bucket. */
    method Reset(key: K, now: nat) returns (known: bool)
      requires Valid()
      modifies shard
      ensures Valid()
      ensures Snap() == Renewed(cfg, old(Snap()), key, now) && known == (key in old(Snap()).live)
    {
      var pos := shard.Position(key);
      if pos.None? {
        return false;
      }
      var slot := shard.slots[pos.value];
      shard.Store(pos.value, slot.(bucket := Bucket(Level(cfg, now))));
      known := true;
    }

    method Clear()
      requires Valid()
      modifies shard, shard.ledger
      ensures Valid() && Snap() == Snapshot(map[], map[])
    {
      shard.Clear();
    }
  }
}

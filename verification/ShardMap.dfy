/** One shard of the per-key store: keys with state in a dense row found through an index, a hand and a sweep
    cursor that take turns over the row, and the ledger of what the evicted owe. */
module ShardMap {
  import opened Common
  import opened Bucket
  import opened Ledger

  const CLOCK_SCAN: nat := 32
  const TTL_SWEEP: nat := 8
  const MIN_REFUSAL_WAIT: nat := 1_000_000

  datatype Slot<K> = Slot(hash: nat, key: K, bucket: Bucket, referenced: bool, lastSeen: nat)

  /** Eviction order among the slots the hand visits: recovered before limited, and among those
      unreferenced before referenced. */
  function Rank<K>(cfg: Config, slot: Slot<K>, now: nat): nat
    requires cfg.Valid()
  {
    (if Lossless(cfg, slot.bucket, now) then 0 else 2) + (if slot.referenced then 1 else 0)
  }

  function RankAt<K>(cfg: Config, slots: seq<Slot<K>>, hand: nat, now: nat, d: nat): nat
    requires cfg.Valid() && d < |slots|
  {
    Rank(cfg, slots[Visited(hand, |slots|, d)], now)
  }

  /** Least, and first among the least. */
  predicate FirstLeast(ranks: seq<nat>, d: nat) {
    && d < |ranks|
    && (forall e | 0 <= e < |ranks| :: ranks[d] <= ranks[e])
    && (forall e | 0 <= e < d :: ranks[d] < ranks[e])
  }

  /** The ranks of the slots the hand visits, in its order. */
  function Ranks<K>(cfg: Config, slots: seq<Slot<K>>, hand: nat, now: nat): seq<nat>
    requires cfg.Valid()
  {
    seq(Min(CLOCK_SCAN, |slots|), d requires 0 <= d < |slots| => RankAt(cfg, slots, hand, now, d))
  }

  /** The victim: least in rank, and first in the hand's order among those. */
  predicate IsVictim<K>(cfg: Config, slots: seq<Slot<K>>, hand: nat, now: nat, d: nat)
    requires cfg.Valid()
  {
    FirstLeast(Ranks(cfg, slots, hand, now), d)
  }

  /** The `d`-th slot the hand visits. */
  function VisitedSlot<K>(slots: seq<Slot<K>>, hand: nat, d: nat): Slot<K>
    requires d < |slots|
  {
    slots[Visited(hand, |slots|, d)]
  }

  /** What that means: a limited key goes only if no visited one has recovered, one in use only if no other of its
      kind is unused, and among equals the one the hand meets first. */
  lemma VictimIsBest<K>(cfg: Config, slots: seq<Slot<K>>, hand: nat, now: nat, at: nat, d: nat)
    requires cfg.Valid() && IsVictim(cfg, slots, hand, now, at) && d < Min(CLOCK_SCAN, |slots|)
    ensures at < Min(CLOCK_SCAN, |slots|)
    ensures var v, o := VisitedSlot(slots, hand, at), VisitedSlot(slots, hand, d);
            && (Lossless(cfg, o.bucket, now) ==> Lossless(cfg, v.bucket, now))
            && (Lossless(cfg, o.bucket, now) == Lossless(cfg, v.bucket, now) && !o.referenced ==> !v.referenced)
            && (Lossless(cfg, o.bucket, now) == Lossless(cfg, v.bucket, now) && o.referenced == v.referenced ==> at <= d)
  {
    hide Lossless, Visited;
    assert Ranks(cfg, slots, hand, now)[d] == RankAt(cfg, slots, hand, now, d);
    assert Ranks(cfg, slots, hand, now)[at] == RankAt(cfg, slots, hand, now, at);
  }

  predicate Expired<K>(slot: Slot<K>, nowMs: nat, ttlMs: nat) {
    Monus(nowMs, slot.lastSeen) >= ttlMs
  }

  /** The index holds exactly the dense positions, each under its own key. */
  predicate IndexesSlots<K>(index: map<K, nat>, slots: seq<Slot<K>>) {
    && (forall i | 0 <= i < |slots| :: slots[i].key in index && index[slots[i].key] == i)
    && (forall k <- index :: index[k] < |slots| && slots[index[k]].key == k)
  }

  function Buckets<K>(index: map<K, nat>, slots: seq<Slot<K>>): map<K, Bucket>
    requires IndexesSlots(index, slots)
  {
    map k | k in index :: slots[index[k]].bucket
  }

  function SlotsReindexed<K>(index: map<K, nat>, slots: seq<Slot<K>>, pos: nat): map<K, nat>
    requires pos < |slots|
  {
    var last := |slots| - 1;
    var fewer := index - {slots[pos].key};
    if pos == last then fewer else fewer[slots[last].key := pos]
  }

  lemma SlotReindexKeeps<K>(slots: seq<Slot<K>>, index: map<K, nat>, pos: nat)
    requires IndexesSlots(index, slots) && pos < |slots|
    ensures IndexesSlots(SlotsReindexed(index, slots, pos), SwapRemove(slots, pos))
    ensures Buckets(SlotsReindexed(index, slots, pos), SwapRemove(slots, pos)) == Buckets(index, slots) - {slots[pos].key}
  {
  }

  /** An entry the idle sweep reclaims. */
  predicate Reclaimable<K>(cfg: Config, slot: Slot<K>, now: nat, nowMs: nat, ttlMs: nat)
    requires cfg.Valid()
  {
    Expired(slot, nowMs, ttlMs) && Lossless(cfg, slot.bucket, now)
  }

  /** The slots left, and the sweep's cursor, after it has looked at `budget` slots. */
  function Reclaimed<K>(cfg: Config, slots: seq<Slot<K>>, sweep: nat, now: nat, nowMs: nat, ttlMs: nat, budget: nat): (seq<Slot<K>>, nat)
    requires cfg.Valid()
    decreases budget
  {
    if budget == 0 || slots == [] then (slots, sweep)
    else
      var at := if sweep >= |slots| then 0 else sweep;
      if Reclaimable(cfg, slots[at], now, nowMs, ttlMs) then Reclaimed(cfg, SwapRemove(slots, at), at, now, nowMs, ttlMs, budget - 1)
      else Reclaimed(cfg, slots, at + 1, now, nowMs, ttlMs, budget - 1)
  }

  /** When everything is idle and recovered, each look reclaims a slot. */
  lemma {:induction false} IdleSlotsGo<K>(cfg: Config, slots: seq<Slot<K>>, sweep: nat, now: nat, nowMs: nat, ttlMs: nat, budget: nat)
    requires cfg.Valid() && forall s <- slots :: Reclaimable(cfg, s, now, nowMs, ttlMs)
    ensures |Reclaimed(cfg, slots, sweep, now, nowMs, ttlMs, budget).0| == Monus(|slots|, budget)
    decreases budget
  {
    if budget > 0 && slots != [] {
      var at := if sweep >= |slots| then 0 else sweep;
      IdleSlotsGo(cfg, SwapRemove(slots, at), at, now, nowMs, ttlMs, budget - 1);
    }
  }

  /** And the cursor moves past nothing it could have reclaimed. */
  lemma {:induction false} SweptPastBusy<K>(cfg: Config, slots: seq<Slot<K>>, sweep: nat, now: nat, nowMs: nat, ttlMs: nat, budget: nat)
    requires cfg.Valid() && sweep + budget <= |slots|
    ensures var (left, after) := Reclaimed(cfg, slots, sweep, now, nowMs, ttlMs, budget);
            && |left| + budget == |slots| + (after - sweep)
            && sweep <= after <= |left| && left[..sweep] == slots[..sweep]
            && forall i | sweep <= i < after :: !Reclaimable(cfg, left[i], now, nowMs, ttlMs)
    decreases budget
  {
    hide Reclaimable;
    if budget > 0 {
      if Reclaimable(cfg, slots[sweep], now, nowMs, ttlMs) {
        SweptPastBusy(cfg, SwapRemove(slots, sweep), sweep, now, nowMs, ttlMs, budget - 1);
      } else {
        SweptPastBusy(cfg, slots, sweep + 1, now, nowMs, ttlMs, budget - 1);
        var (left, _) := Reclaimed(cfg, slots, sweep + 1, now, nowMs, ttlMs, budget - 1);
        assert left[sweep] == left[..sweep + 1][sweep] == slots[sweep];
      }
    }
  }

  lemma {:induction false} BusyStay<K>(cfg: Config, slots: seq<Slot<K>>, sweep: nat, now: nat, nowMs: nat, ttlMs: nat, budget: nat)
    requires cfg.Valid() && forall s <- slots :: !Reclaimable(cfg, s, now, nowMs, ttlMs)
    ensures Reclaimed(cfg, slots, sweep, now, nowMs, ttlMs, budget).0 == slots
    decreases budget
  {
    hide Reclaimable;
    if budget > 0 && slots != [] {
      var at := if sweep >= |slots| then 0 else sweep;
      assert slots[at] in slots;
      BusyStay(cfg, slots, at + 1, now, nowMs, ttlMs, budget - 1);
    }
  }

  lemma {:induction false} RestReclaimed<K(!new)>(cfg: Config, slots: seq<Slot<K>>, sweep: nat, now: nat, nowMs: nat, ttlMs: nat,
                                            budget: nat, turns: nat, busy: Slot<K> -> bool)
    requires cfg.Valid() && turns <= |slots| && budget >= turns + |slots|
    requires forall s :: busy(s) <==> !Reclaimable(cfg, s, now, nowMs, ttlMs)
    requires GoodBut(slots, sweep, turns, busy)
    ensures forall s <- Reclaimed(cfg, slots, sweep, now, nowMs, ttlMs, budget).0 :: !Reclaimable(cfg, s, now, nowMs, ttlMs)
    decreases budget
  {
    hide Reclaimable;
    if turns == 0 {
      AllGood(slots, sweep, busy);
      BusyStay(cfg, slots, sweep, now, nowMs, ttlMs, budget);
    } else {
      var at := if sweep >= |slots| then 0 else sweep;
      WrapsTo(slots, sweep, turns, busy);
      if Reclaimable(cfg, slots[at], now, nowMs, ttlMs) {
        RemovedGood(slots, at, turns, busy);
        RestReclaimed(cfg, SwapRemove(slots, at), at, now, nowMs, ttlMs, budget - 1, Min(turns, |slots| - 1), busy);
      } else {
        PassedGood(slots, at, turns, busy);
        RestReclaimed(cfg, slots, at + 1, now, nowMs, ttlMs, budget - 1, turns - 1, busy);
      }
    }
  }

  /** From wherever the cursor is: with a look at every slot and every place it may have to look at again, nothing
      that could be reclaimed is left. */
  lemma WholeSweepReclaims<K(!new)>(cfg: Config, slots: seq<Slot<K>>, sweep: nat, now: nat, nowMs: nat, ttlMs: nat, budget: nat)
    requires cfg.Valid() && budget >= 2 * |slots|
    ensures forall s <- Reclaimed(cfg, slots, sweep, now, nowMs, ttlMs, budget).0 :: !Reclaimable(cfg, s, now, nowMs, ttlMs)
  {
    RestReclaimed(cfg, slots, sweep, now, nowMs, ttlMs, budget, |slots|, (s: Slot<K>) => !cfg.Valid() || !Reclaimable(cfg, s, now, nowMs, ttlMs));
  }

  /** When the slots the hand visits recover. */
  function Recoveries<K>(cfg: Config, slots: seq<Slot<K>>, hand: nat, now: nat): seq<nat>
    requires cfg.Valid()
  {
    seq(Min(CLOCK_SCAN, |slots|), d requires 0 <= d < |slots| => RecoveryAt(cfg, slots, hand, now, d))
  }

  function RecoveryAt<K>(cfg: Config, slots: seq<Slot<K>>, hand: nat, now: nat, d: nat): nat
    requires cfg.Valid() && d < |slots|
  {
    TimeUntilFull(cfg, slots[Visited(hand, |slots|, d)].bucket, now)
  }

  /** How long a new key is told to wait: until the first of the visited slots recovers or the first of the
      scanned debts settles, but at least a millisecond. */
  function RefusalWait(recoveries: seq<nat>, settleTimes: seq<nat>, now: nat): nat {
    if recoveries == [] || settleTimes == [] then MIN_REFUSAL_WAIT
    else Max(Min(Minimum(recoveries), Monus(Minimum(settleTimes), now)), MIN_REFUSAL_WAIT)
  }

  /** What recording an evicted key's debt may do to the ledger: the debt is there, until the bucket would have
      been full or the debt already there settles, whichever is later, and no other debt is touched but a
      settled one dropped (or, when forgetting is allowed, one given up). */
  predicate Ledgered(cfg: Config, before: map<nat, nat>, after: map<nat, nat>, hash: nat, bucket: Bucket, now: nat, forget: bool)
    requires cfg.Valid()
  {
    && hash in after && after[hash] == Max(if hash in before then before[hash] else 0, FirstFull(cfg, bucket))
    && (forall h <- after | h != hash :: h in before && after[h] == before[h])
    && (forall h <- before | h !in after :: before[h] <= now || forget)
  }

  /** No wait of a millisecond or more is too short exactly when one of the visited slots recovers or one of the
      scanned debts settles within it. */
  lemma RefusalWaitIsFirst(recoveries: seq<nat>, settleTimes: seq<nat>, now: nat, wait: nat)
    requires recoveries != [] && settleTimes != [] && wait >= MIN_REFUSAL_WAIT
    ensures RefusalWait(recoveries, settleTimes, now) <= wait
       <==> (exists r <- recoveries :: r <= wait) || (exists s <- settleTimes :: s <= now + wait)
  {
    MinimumIsLeast(recoveries);
    MinimumIsLeast(settleTimes);
  }

  class Shard<K(==)> {
    const cfg: Config
    const hasher: K -> nat
    const ledger: DebtLedger
    var index: map<K, nat>
    var slots: seq<Slot<K>>
    var hand: nat
    var sweep: nat

    constructor (cfg: Config, hasher: K -> nat)
      requires cfg.Valid()
      ensures this.cfg == cfg && this.hasher == hasher && fresh(ledger) && Valid() && Live() == map[] && ledger.Owed() == map[]
      ensures slots == [] && hand == 0 && ledger.debts == []
    {
      this.cfg, this.hasher := cfg, hasher;
      ledger := new DebtLedger();
      index, slots, hand, sweep := map[], [], 0, 0;
    }

    /** The index holds exactly the dense positions, each under its own key, and every slot keeps its
        key's hash. */
    predicate Valid()
      reads this, ledger
    {
      && cfg.Valid() && ledger.Valid() && Indexed() && Hashed()
    }

    predicate Indexed()
      reads this
    {
      IndexesSlots(index, slots)
    }

    predicate Hashed()
      reads this
    {
      forall s <- slots :: s.hash == hasher(s.key)
    }

    /** Forgets every key and every debt. */
    method Clear()
      modifies this, ledger
      ensures Indexed() && Hashed() && ledger.Valid() && Live() == map[] && ledger.Owed() == map[]
      ensures slots == [] && ledger.debts == []
    {
      index, slots, hand, sweep := map[], [], 0, 0;
      ledger.Clear();
    }

    /** The keys with state, and their buckets. */
    function Live(): map<K, Bucket>
      requires Indexed()
      reads this
    {
      Buckets(index, slots)
    }

    /** There are as many live keys as slots. */
    lemma Size()
      requires Indexed()
      ensures |Live()| == |slots|
    {
      assert Live().Keys == index.Keys;
      assert (set i | 0 <= i < |slots| :: slots[i].key) == index.Keys;
      KeysDistinct(|slots|);
    }

    lemma {:induction false} KeysDistinct(n: nat)
      requires Indexed() && n <= |slots|
      ensures |set i | 0 <= i < n :: slots[i].key| == n
    {
      if n > 0 {
        KeysDistinct(n - 1);
        var before := set i | 0 <= i < n - 1 :: slots[i].key;
        assert (set i | 0 <= i < n :: slots[i].key) == before + {slots[n - 1].key};
        assert slots[n - 1].key !in before;
      }
    }

    method Position(key: K) returns (pos: Option<nat>)
      requires Indexed()
      ensures pos.Some? <==> key in Live()
      ensures pos.Some? ==> pos.value < |slots| && slots[pos.value].key == key && slots[pos.value].bucket == Live()[key]
    {
      pos := if key in index then Some(index[key]) else None;
    }

    /** Appends a new key. */
    method Insert(slot: Slot<K>)
      requires Indexed() && slot.key !in Live() && slot.hash == hasher(slot.key)
      modifies this`index, this`slots
      ensures Indexed() && slots == old(slots) + [slot]
      ensures old(Hashed()) ==> Hashed()
      ensures Live() == old(Live())[slot.key := slot.bucket]
    {
      index := index[slot.key := |slots|];
      slots := slots + [slot];
    }

    /** Forgets one key. The last slot takes its place, so the index stays on the dense positions. */
    method RemoveAt(pos: nat)
      requires Indexed() && pos < |slots|
      modifies this`index, this`slots
      ensures Indexed() && slots == SwapRemove(old(slots), pos)
      ensures Live() == old(Live()) - {old(slots)[pos].key}
    {
      SlotReindexKeeps(slots, index, pos);
      hide SwapRemove, IndexesSlots;
      var last := |slots| - 1;
      var moved := index - {slots[pos].key};
      if pos != last {
        moved := moved[slots[last].key := pos];
      }
      index, slots := moved, SwapRemove(slots, pos);
    }

    /** Removes a slot, leaving every other one with its hash. */
    method Discard(pos: nat)
      requires Indexed() && Hashed() && pos < |slots|
      modifies this`index, this`slots
      ensures Indexed() && Hashed() && slots == SwapRemove(old(slots), pos)
      ensures Live() == old(Live()) - {old(slots)[pos].key}
    {
      KeptBySwapRemove(slots, pos);
      RemoveAt(pos);
    }

    /** Puts a bucket and marks back into a slot. */
    method Store(pos: nat, slot: Slot<K>)
      requires Indexed() && pos < |slots| && slot.key == slots[pos].key && slot.hash == slots[pos].hash
      modifies this`slots
      ensures Indexed() && slots == old(slots)[pos := slot]
      ensures old(Hashed()) ==> Hashed()
      ensures Live() == old(Live())[slot.key := slot.bucket]
    {
      slots := slots[pos := slot];
    }

    /** Reclaims idle entries whose bucket has recovered among the next `budget` slots, and no others. */
    method SweepIdle(now: nat, nowMs: nat, ttlMs: nat, budget: nat) returns (reclaimed: nat)
      requires cfg.Valid() && Indexed()
      modifies this`index, this`slots, this`sweep
      ensures Indexed() && reclaimed <= budget && |slots| == |old(slots)| - reclaimed
      ensures (slots, sweep) == Reclaimed(cfg, old(slots), old(sweep), now, nowMs, ttlMs, budget)
      ensures forall s <- slots :: s in old(slots)
      ensures forall s <- old(slots) :: s in slots || Reclaimable(cfg, s, now, nowMs, ttlMs)
      ensures old(Hashed()) ==> Hashed()
      ensures forall k <- Live() :: k in old(Live()) && Live()[k] == old(Live())[k]
      ensures forall k <- old(Live()) :: k in Live() || Lossless(cfg, old(Live())[k], now)
    {
      hide Lossless, Reclaimable, SwapRemove;
      reclaimed := 0;
      for k := 0 to budget
        invariant Indexed() && reclaimed <= k && |slots| == |old(slots)| - reclaimed
        invariant Reclaimed(cfg, slots, sweep, now, nowMs, ttlMs, budget - k) == Reclaimed(cfg, old(slots), old(sweep), now, nowMs, ttlMs, budget)
        invariant forall s <- slots :: s in old(slots)
        invariant forall s <- old(slots) :: s in slots || Reclaimable(cfg, s, now, nowMs, ttlMs)
        invariant forall k <- Live() :: k in old(Live()) && Live()[k] == old(Live())[k]
        invariant forall k <- old(Live()) :: k in Live() || Lossless(cfg, old(Live())[k], now)
      {
        if |slots| == 0 {
          break;
        }
        var gone := SweepNext(now, nowMs, ttlMs);
        reclaimed := reclaimed + if gone then 1 else 0;
      }
    }

    /** Looks at the slot under the sweep cursor: reclaims it (and the swap moves an unexamined slot there)
        or steps past it. */
    method SweepNext(now: nat, nowMs: nat, ttlMs: nat) returns (gone: bool)
      requires cfg.Valid() && Indexed() && slots != []
      modifies this`index, this`slots, this`sweep
      ensures Indexed()
      ensures var at := if old(sweep) >= |old(slots)| then 0 else old(sweep);
              var slot := old(slots)[at];
              && gone == Reclaimable(cfg, slot, now, nowMs, ttlMs)
              && (if gone then sweep == at && slots == SwapRemove(old(slots), at) && Live() == old(Live()) - {slot.key}
                  else sweep == at + 1 && slots == old(slots) && Live() == old(Live()))
              && slot.key in old(Live()) && old(Live())[slot.key] == slot.bucket
              && (gone ==> Lossless(cfg, slot.bucket, now))
      ensures forall s <- slots :: s in old(slots)
      ensures forall s <- old(slots) :: s in slots || Reclaimable(cfg, s, now, nowMs, ttlMs)
    {
      if sweep >= |slots| {
        sweep := 0;
      }
      gone := Reclaimable(cfg, slots[sweep], now, nowMs, ttlMs);
      if gone {
        KeptBySwapRemove(slots, sweep);
        RemoveAt(sweep);
      } else {
        sweep := sweep + 1;
      }
    }

    /** Visits the slot under the hand: clears its reference bit and moves on. */
    method Visit() returns (pos: nat, slot: Slot<K>)
      requires slots != []
      modifies this`slots, this`hand
      ensures pos == (if old(hand) >= |old(slots)| then 0 else old(hand)) && hand == pos + 1 && pos < |old(slots)|
      ensures slots == old(slots)[pos := old(slots)[pos].(referenced := false)] && slot == old(slots)[pos]
    {
      if hand >= |slots| {
        hand := 0;
      }
      pos, slot := hand, slots[hand];
      slots := slots[hand := slot.(referenced := false)];
      hand := hand + 1;
    }

    /** The hand has visited `k` slots since it stood at `from` over `before`. */
    ghost predicate HandAt(before: seq<Slot<K>>, from: nat, k: nat)
      reads this
    {
      && k <= |before| && Cleared(before, slots)
      && (if k == 0 then hand == from
          else k == |before| || hand == Visited(from, |before|, k) || (hand == |before| && Visited(from, |before|, k) == 0))
      && (forall e | 0 <= e < k :: !slots[Visited(from, |before|, e)].referenced)
      && (forall e | k <= e < |before| :: slots[Visited(from, |before|, e)] == before[Visited(from, |before|, e)])
    }

    /** One more visit. */
    method VisitNext(ghost before: seq<Slot<K>>, ghost from: nat, ghost k: nat) returns (pos: nat, slot: Slot<K>)
      requires k < |before| && HandAt(before, from, k)
      modifies this`slots, this`hand
      ensures HandAt(before, from, k + 1) && |slots| == |before|
      ensures pos == Visited(from, |before|, k) && slot == before[pos]
    {
      pos, slot := Visit();
    }

    /** `ranks` are those of the first slots the hand visits. */
    ghost predicate Ranked(s: seq<Slot<K>>, from: nat, now: nat, ranks: seq<nat>)
      requires cfg.Valid()
    {
      |ranks| <= |s| && forall e | 0 <= e < |ranks| :: ranks[e] == RankAt(cfg, s, from, now, e)
    }

    lemma NoneRanked(s: seq<Slot<K>>, from: nat, now: nat)
      requires cfg.Valid()
      ensures Ranked(s, from, now, [])
    {
    }

    lemma RankedMore(s: seq<Slot<K>>, from: nat, now: nat, ranks: seq<nat>)
      requires cfg.Valid() && Ranked(s, from, now, ranks) && |ranks| < |s|
      ensures Ranked(s, from, now, ranks + [RankAt(cfg, s, from, now, |ranks|)])
      ensures RankAt(cfg, s, from, now, |ranks|) == Rank(cfg, s[Visited(from, |s|, |ranks|)], now)
    {
    }

    lemma NothingSeen(now: nat)
      requires cfg.Valid()
      ensures Picked(slots, hand, now, [], None, 0, None, 0) && Awaited(slots, hand, now, 0, None, None, [], 0)
      ensures HandAt(slots, hand, 0)
    {
    }

    /** Walks the hand over at most `CLOCK_SCAN` slots, up to the first recovered and unreferenced one. */
    method Walk(now: nat) returns (victim: Option<nat>, firstRecovered: Option<nat>, limited: Option<(nat, bool, nat)>, soonest: nat,
                                   ghost ranks: seq<nat>, ghost atRecovered: nat, ghost atLimited: nat, ghost waits: seq<nat>)
      requires Valid() && slots != []
      modifies this`slots, this`hand
      ensures |ranks| <= Min(CLOCK_SCAN, |slots|) && HandAt(old(slots), old(hand), |ranks|)
      ensures Ranked(old(slots), old(hand), now, ranks)
      ensures victim.None? ==>
                && |ranks| == Min(CLOCK_SCAN, |slots|) && Picked(old(slots), old(hand), now, ranks, firstRecovered, atRecovered, limited, atLimited)
                && Awaited(old(slots), old(hand), now, |ranks|, firstRecovered, limited, waits, soonest)
      ensures victim.Some? ==>
                var at := |ranks| - 1;
                && 0 <= at && victim.value == Visited(old(hand), |slots|, at)
                && ranks[at] == 0 && forall e | 0 <= e < at :: ranks[e] > 0
    {
      hide Lossless, Picked, Awaited, Visited, HandAt, Ranked, RankAt, Indexed, Hashed, TimeUntilFull, Level;
      NothingSeen(now);
      victim, firstRecovered, limited, soonest, atRecovered, atLimited, ranks, waits := None, None, None, 0, 0, 0, [], [];
      ghost var slots0, hand0 := slots, hand;
      NoneRanked(slots0, hand0, now);
      for k := 0 to Min(CLOCK_SCAN, |slots|)
        invariant HandAt(slots0, hand0, k) && |slots| == |slots0|
        invariant |ranks| == k && Ranked(slots0, hand0, now, ranks) && (forall e | 0 <= e < k :: ranks[e] > 0) && victim.None?
        invariant Picked(slots0, hand0, now, ranks, firstRecovered, atRecovered, limited, atLimited)
        invariant Awaited(slots0, hand0, now, k, firstRecovered, limited, waits, soonest)
      {
        victim, firstRecovered, limited, soonest, ranks, atRecovered, atLimited, waits :=
          Look(now, firstRecovered, limited, soonest, slots0, hand0, ranks, atRecovered, atLimited, waits);
        if victim.Some? {
          return;
        }
      }
    }

    /** Visits one slot: it is the victim if it is recovered and unreferenced, and remembered otherwise. */
    method Look(now: nat, firstRecovered: Option<nat>, limited: Option<(nat, bool, nat)>, soonest: nat,
                ghost s: seq<Slot<K>>, ghost from: nat, ghost ranks: seq<nat>, ghost atRecovered: nat, ghost atLimited: nat,
                ghost waits: seq<nat>)
      returns (victim: Option<nat>, first: Option<nat>, lim: Option<(nat, bool, nat)>, soon: nat,
               ghost seen: seq<nat>, ghost atFirst: nat, ghost atLim: nat, ghost more: seq<nat>)
      requires cfg.Valid() && |ranks| < |s| && HandAt(s, from, |ranks|) && Ranked(s, from, now, ranks)
      requires Picked(s, from, now, ranks, firstRecovered, atRecovered, limited, atLimited)
      requires Awaited(s, from, now, |ranks|, firstRecovered, limited, waits, soonest)
      modifies this`slots, this`hand
      ensures HandAt(s, from, |ranks| + 1) && |slots| == |s|
      ensures |seen| == |ranks| + 1 && seen[..|ranks|] == ranks && Ranked(s, from, now, seen)
      ensures if victim.Some? then seen[|ranks|] == 0 && victim.value == Visited(from, |s|, |ranks|)
              else
                && seen[|ranks|] > 0 && Picked(s, from, now, seen, first, atFirst, lim, atLim)
                && Awaited(s, from, now, |ranks| + 1, first, lim, more, soon)
    {
      hide Lossless, Picked, Awaited, Visited, HandAt, Ranked, RankAt, TimeUntilFull, Level;
      victim, first, lim, soon, atFirst, atLim, more := None, firstRecovered, limited, soonest, atRecovered, atLimited, waits;
      var here, slot := VisitNext(s, from, |ranks|);
      RankedMore(s, from, now, ranks);
      seen := ranks + [RankAt(cfg, s, from, now, |ranks|)];
      if !slot.referenced && Lossless(cfg, slot.bucket, now) {
        victim := Some(here);
      } else {
        first, lim, soon, atFirst, atLim, more :=
          Remember(now, here, slot, firstRecovered, limited, soonest, s, from, ranks, atRecovered, atLimited, waits);
      }
    }

    /** Moves the CLOCK hand: visits at most `CLOCK_SCAN` slots from it, clearing reference bits, and
        names the slot to evict; `soonest` is the least recovery time of the limited slots visited and
        `recoversIn` the victim's, if it is limited. */
    method ClockScan(now: nat) returns (pos: nat, recovered: bool, recoversIn: nat, soonest: nat, ghost at: nat, ghost visits: nat)
      requires Valid() && slots != []
      modifies this`slots, this`hand
      ensures Indexed() && Hashed() && index == old(index) && Live() == old(Live())
      ensures at < visits <= Min(CLOCK_SCAN, |slots|) && HandAt(old(slots), old(hand), visits)
      ensures IsVictim(cfg, old(slots), old(hand), now, at) && pos == Visited(old(hand), |slots|, at)
      ensures recovered == Lossless(cfg, old(slots)[pos].bucket, now)
      ensures pos < |slots| && Cleared(old(slots), slots)
      ensures !recovered ==> now + recoversIn == FirstFull(cfg, old(slots)[pos].bucket)
      ensures !recovered ==> IsLeast(Recoveries(cfg, old(slots), old(hand), now), soonest)
    {
      hide Lossless, Visited, Level, TimeUntilFull, DebtLedger.Valid;
      ghost var slots0, hand0 := slots, hand;
      ghost var ranks, atRecovered, atLimited, waits;
      var victim, firstRecovered, limited;
      victim, firstRecovered, limited, soonest, ranks, atRecovered, atLimited, waits := Walk(now);
      ClearedKeepsLive(slots0);
      recoversIn, visits := 0, |ranks|;
      if victim.Some? {
        pos, recovered, at := victim.value, true, |ranks| - 1;
        FirstZero(ranks, Ranks(cfg, slots0, hand0, now), at);
      } else {
        assert ranks == Ranks(cfg, slots0, hand0, now);
        if firstRecovered.Some? {
          pos, recovered, at := firstRecovered.value, true, atRecovered;
        } else {
          assert ranks[0] >= 2 && waits == Recoveries(cfg, slots0, hand0, now);
          pos, recovered, recoversIn, at := limited.value.0, false, limited.value.2, atLimited;
          LimitedRecovers(cfg, slots0[pos].bucket, now);
        }
      }
    }

    /** Takes note of a slot that is not yet the victim. */
    method Remember(now: nat, here: nat, slot: Slot<K>,
                    firstRecovered: Option<nat>, limited: Option<(nat, bool, nat)>, soonest: nat,
                    ghost s: seq<Slot<K>>, ghost from: nat, ghost ranks: seq<nat>, ghost atRecovered: nat, ghost atLimited: nat,
                    ghost waits: seq<nat>)
      returns (first: Option<nat>, lim: Option<(nat, bool, nat)>, soon: nat, ghost atFirst: nat, ghost atLim: nat, ghost more: seq<nat>)
      requires cfg.Valid() && |ranks| < |s| && Picked(s, from, now, ranks, firstRecovered, atRecovered, limited, atLimited)
      requires Awaited(s, from, now, |ranks|, firstRecovered, limited, waits, soonest)
      requires here == Visited(from, |s|, |ranks|) && slot == s[here]
      requires slot.referenced || !Lossless(cfg, slot.bucket, now)
      ensures Picked(s, from, now, ranks + [RankAt(cfg, s, from, now, |ranks|)], first, atFirst, lim, atLim)
      ensures Awaited(s, from, now, |ranks| + 1, first, lim, more, soon)
      ensures soon == if Lossless(cfg, slot.bucket, now) then soonest
                      else if limited.None? then TimeUntilFull(cfg, slot.bucket, now) else Min(soonest, TimeUntilFull(cfg, slot.bucket, now))
    {
      hide TimeUntilFull, Level;
      first, lim, soon, atFirst, atLim, more := firstRecovered, limited, soonest, atRecovered, atLimited, waits;
      if Lossless(cfg, slot.bucket, now) {
        PickRecovered(s, from, now, ranks, firstRecovered, atRecovered, limited, atLimited);
        if first.None? {
          first, atFirst := Some(here), |ranks|;
        }
      } else {
        var wait := TimeUntilFull(cfg, slot.bucket, now);
        soon := if limited.None? then wait else Min(soonest, wait);
        LeastMore(waits, soonest, wait);
        more := waits + [wait];
        PickLimited(s, from, now, ranks, firstRecovered, atRecovered, limited, atLimited, wait);
        if limited.None? || (limited.value.1 && !slot.referenced) {
          lim, atLim := Some((here, slot.referenced, wait)), |ranks|;
        }
      }
    }

    /** `waits` are the recovery times of the limited slots among the first `n` visited, and `soonest` is the
        least; while none has recovered, they are those of all of them. */
    ghost predicate Awaited(s: seq<Slot<K>>, from: nat, now: nat, n: nat,
                            firstRecovered: Option<nat>, limited: Option<(nat, bool, nat)>, waits: seq<nat>, soonest: nat)
      requires cfg.Valid() && n <= |s|
    {
      && (limited.None? <==> waits == []) && (waits != [] ==> IsLeast(waits, soonest))
      && (firstRecovered.None? ==> |waits| == n && forall e | 0 <= e < n :: waits[e] == RecoveryAt(cfg, s, from, now, e))
    }

    lemma ClearedKeepsLive(before: seq<Slot<K>>)
      requires Cleared(before, slots)
      requires IndexesSlots(index, before)
      requires (forall s <- before :: s.hash == hasher(s.key))
      ensures Indexed() && Hashed() && Live() == map k | k in index :: before[index[k]].bucket
    {
      forall i | 0 <= i < |before| ensures slots[i].key == before[i].key && slots[i].bucket == before[i].bucket && slots[i].hash == before[i].hash {}
    }

    lemma PickRecovered(s: seq<Slot<K>>, from: nat, now: nat, ranks: seq<nat>,
                        firstRecovered: Option<nat>, atRecovered: nat, limited: Option<(nat, bool, nat)>, atLimited: nat)
      requires cfg.Valid() && |ranks| < |s| && Picked(s, from, now, ranks, firstRecovered, atRecovered, limited, atLimited)
      requires RankAt(cfg, s, from, now, |ranks|) == 1
      requires Lossless(cfg, s[Visited(from, |s|, |ranks|)].bucket, now)
      ensures var more := ranks + [1];
              if firstRecovered.None? then
                Picked(s, from, now, more, Some(Visited(from, |s|, |ranks|)), |ranks|, limited, atLimited)
              else Picked(s, from, now, more, firstRecovered, atRecovered, limited, atLimited)
    {
    }

    lemma PickLimited(s: seq<Slot<K>>, from: nat, now: nat, ranks: seq<nat>,
                      firstRecovered: Option<nat>, atRecovered: nat, limited: Option<(nat, bool, nat)>, atLimited: nat, wait: nat)
      requires cfg.Valid() && |ranks| < |s| && Picked(s, from, now, ranks, firstRecovered, atRecovered, limited, atLimited)
      requires !Lossless(cfg, s[Visited(from, |s|, |ranks|)].bucket, now)
      requires wait == TimeUntilFull(cfg, s[Visited(from, |s|, |ranks|)].bucket, now)
      ensures var here := Visited(from, |s|, |ranks|);
              var more := ranks + [RankAt(cfg, s, from, now, |ranks|)];
              if limited.None? || (limited.value.1 && !s[here].referenced) then
                Picked(s, from, now, more, firstRecovered, atRecovered, Some((here, s[here].referenced, wait)), |ranks|)
              else Picked(s, from, now, more, firstRecovered, atRecovered, limited, atLimited)
    {
    }

    lemma FirstZero(seen: seq<nat>, ranks: seq<nat>, at: nat)
      requires |seen| == at + 1 <= |ranks| && seen[at] == 0 && ranks[at] == 0
      requires forall e | 0 <= e < at :: ranks[e] > 0
      ensures FirstLeast(ranks, at)
    {
    }

    /** What the scan remembers of the slots visited so far: the first recovered one, and the limited one
        to prefer. */
    ghost predicate Picked(s: seq<Slot<K>>, from: nat, now: nat, ranks: seq<nat>,
                           firstRecovered: Option<nat>, atRecovered: nat, limited: Option<(nat, bool, nat)>, atLimited: nat)
      requires cfg.Valid() && |ranks| <= |s|
    {
      && (match firstRecovered
          case None => forall e | 0 <= e < |ranks| :: ranks[e] >= 2
          case Some(pos) => FirstLeast(ranks, atRecovered) && ranks[atRecovered] == 1 && pos == Visited(from, |s|, atRecovered)
                            && Lossless(cfg, s[pos].bucket, now))
      && (match limited
          case None => forall e | 0 <= e < |ranks| :: ranks[e] < 2
          case Some((pos, referenced, wait)) =>
            && atLimited < |ranks| && pos == Visited(from, |s|, atLimited) && !Lossless(cfg, s[pos].bucket, now)
            && ranks[atLimited] == (if referenced then 3 else 2)
            && (firstRecovered.None? ==> FirstLeast(ranks, atLimited))
            && (forall e | 0 <= e < |ranks| && ranks[e] == 2 :: !referenced)
            && wait == TimeUntilFull(cfg, s[pos].bucket, now))
    }

    /** Writes the debt of a limited slot to the ledger. */
    method WriteDebt(hash: nat, bucket: Bucket, recoversIn: nat, now: nat, cap: nat, forget: bool) returns (wait: Option<nat>)
      requires cfg.Valid() && ledger.Valid() && cap > 0 && now + recoversIn == FirstFull(cfg, bucket)
      modifies ledger
      ensures ledger.Valid() && |ledger.debts| <= Max(|old(ledger.debts)|, cap)
      ensures wait.Some? ==> ledger.debts == old(ledger.debts) && ledger.Owed() == old(ledger.Owed())
      ensures wait.Some? ==> !forget && |ledger.debts| >= cap && IsLeast(SettleTimes(ledger.debts, old(ledger.cursor)), now + wait.value)
      ensures wait.None? ==> Ledgered(cfg, old(ledger.Owed()), ledger.Owed(), hash, bucket, now, forget)
    {
      ghost var gone;
      wait, gone := ledger.Record(Debt(hash, now + recoversIn), now, cap, forget);
    }

    /** Writes the victim's debt down, or says how long a new key should wait for room. */
    method MoveDebt(hash: nat, bucket: Bucket, recoversIn: nat, soonest: nat, now: nat, cap: nat, forget: bool, ghost recoveries: seq<nat>)
      returns (refused: Option<nat>)
      requires cfg.Valid() && ledger.Valid() && cap > 0 && now + recoversIn == FirstFull(cfg, bucket)
      requires IsLeast(recoveries, soonest)
      modifies ledger
      ensures ledger.Valid() && |ledger.debts| <= Max(|old(ledger.debts)|, cap)
      ensures refused.None? ==> Ledgered(cfg, old(ledger.Owed()), ledger.Owed(), hash, bucket, now, forget)
      ensures refused.Some? ==>
                && !forget && ledger.Owed() == old(ledger.Owed()) && |old(ledger.debts)| == |ledger.debts| >= cap
                && refused.value == RefusalWait(recoveries, SettleTimes(old(ledger.debts), old(ledger.cursor)), now)
    {
      hide Ledgered, SettleTimes;
      ghost var times := SettleTimes(ledger.debts, ledger.cursor);
      var wait := WriteDebt(hash, bucket, recoversIn, now, cap, forget);
      refused := None;
      if wait.Some? {
        LeastIsMinimum(recoveries, soonest);
        LeastIsMinimum(times, now + wait.value);
        refused := Some(Max(Min(soonest, wait.value), MIN_REFUSAL_WAIT));
      }
    }

    /** One key fewer: the one the hand picks, `at` slots on from where it stands. A victim that still owes
        something goes only if the ledger takes its debt; otherwise all stays as it was and `refused` says how
        long to wait. */
    method EvictOne(now: nat, ledgerCap: nat, forget: bool) returns (refused: Option<nat>, ghost at: nat)
      requires Valid() && ledgerCap > 0
      modifies this, ledger
      ensures Valid() && |ledger.debts| <= Max(|old(ledger.debts)|, ledgerCap)
      ensures refused.Some? ==>
                && !forget && |old(ledger.debts)| == |ledger.debts| >= ledgerCap
                && refused.value == RefusalWait(Recoveries(cfg, old(slots), old(hand), now),
                                                SettleTimes(old(ledger.debts), old(ledger.cursor)), now)
      ensures old(slots) == [] ==> refused.None? && slots == [] && Live() == old(Live()) && ledger.Owed() == old(ledger.Owed())
      ensures old(slots) != [] ==> Evicted(old(slots), old(hand), old(Live()), old(ledger.Owed()), now, forget, at, refused)
      ensures old(slots) != [] ==> |slots| == |old(slots)| - if refused.None? then 1 else 0
      ensures old(slots) != [] && refused.None? ==> hand == Visited(old(hand), |old(slots)|, at) + 1
    {
      hide Evicted, RefusalWait, Recoveries, SettleTimes, Indexed, Hashed, Live, DebtLedger.Valid, DebtLedger.Owed;
      refused, at := None, 0;
      if |slots| > 0 {
        refused, at := EvictNext(now, ledgerCap, forget);
      }
    }

    method EvictNext(now: nat, ledgerCap: nat, forget: bool) returns (refused: Option<nat>, ghost at: nat)
      requires Valid() && ledgerCap > 0 && slots != []
      modifies this, ledger
      ensures Valid() && |ledger.debts| <= Max(|old(ledger.debts)|, ledgerCap)
      ensures refused.Some? ==>
                && !forget && |old(ledger.debts)| == |ledger.debts| >= ledgerCap
                && refused.value == RefusalWait(Recoveries(cfg, old(slots), old(hand), now),
                                                SettleTimes(old(ledger.debts), old(ledger.cursor)), now)
      ensures Evicted(old(slots), old(hand), old(Live()), old(ledger.Owed()), now, forget, at, refused)
      ensures |slots| == |old(slots)| - if refused.None? then 1 else 0
      ensures refused.None? ==> hand == Visited(old(hand), |old(slots)|, at) + 1
    {
      hide TimeUntilFull, Level, Visited, IsVictim, HandAt, Lossless, Ledgered, SwapRemove, IsLeast, Recoveries, SettleTimes;
      hide Cleared, Indexed, Hashed, Live, DebtLedger.Valid, DebtLedger.Owed;
      ghost var slots0, hand0 := slots, hand;
      var pos, recovered, recoversIn, soonest;
      ghost var visits;
      pos, recovered, recoversIn, soonest, at, visits := ClockScan(now);
      OnlyBitsCleared(slots0, pos);
      refused := None;
      if !recovered {
        refused := MoveDebt(slots[pos].hash, slots[pos].bucket, recoversIn, soonest, now, ledgerCap, forget, Recoveries(cfg, slots0, hand0, now));
        if refused.Some? {
          return;
        }
      }
      Drop(pos);
    }

    lemma OnlyBitsCleared(before: seq<Slot<K>>, pos: nat)
      requires Cleared(before, slots) && pos < |slots|
      ensures |slots| == |before|
      ensures slots[pos].key == before[pos].key && slots[pos].hash == before[pos].hash && slots[pos].bucket == before[pos].bucket
    {
      assert slots[pos].(referenced := before[pos].referenced) == before[pos];
    }

    /** Removes the victim. */
    method Drop(pos: nat)
      requires Indexed() && Hashed() && pos < |slots|
      modifies this`index, this`slots, this`hand
      ensures Indexed() && Hashed() && |slots| == |old(slots)| - 1
      ensures slots == SwapRemove(old(slots), pos) && hand == pos + 1
      ensures Live() == old(Live()) - {old(slots)[pos].key}
    {
      Discard(pos);
      // Whoever took the victim's place is the newest; the hand comes to it last.
      hand := pos + 1;
    }

    /** What evicting did: the victim is gone, losslessly or into the ledger; or nothing is. */
    predicate Evicted(slots0: seq<Slot<K>>, hand0: nat, live0: map<K, Bucket>, owed0: map<nat, nat>,
                      now: nat, forget: bool, at: nat, refused: Option<nat>)
      requires Valid()
      reads this, ledger
    {
      && IsVictim(cfg, slots0, hand0, now, at)
      && var slot := slots0[Visited(hand0, |slots0|, at)];
         if refused.Some? then !Lossless(cfg, slot.bucket, now) && Live() == live0 && ledger.Owed() == owed0
         else
           && Live() == live0 - {slot.key}
           && if Lossless(cfg, slot.bucket, now) then ledger.Owed() == owed0
              else Ledgered(cfg, owed0, ledger.Owed(), slot.hash, slot.bucket, now, forget)
    }

    /** Reference bits may have been cleared, and nothing else. */
    predicate Cleared(before: seq<Slot<K>>, after: seq<Slot<K>>) {
      |before| == |after| && forall i | 0 <= i < |before| :: after[i].(referenced := before[i].referenced) == before[i]
    }
  }

  lemma KeptBySwapRemove<T>(s: seq<T>, pos: nat)
    requires pos < |s|
    ensures forall x <- SwapRemove(s, pos) :: x in s
    ensures forall x <- s :: x == s[pos] || x in SwapRemove(s, pos)
  {
    var r := SwapRemove(s, pos);
    forall x | x in s ensures x == s[pos] || x in r {
      var i :| 0 <= i < |s| && s[i] == x;
      if i == |s| - 1 {
        assert i == pos || r[pos] == x;
      } else {
        assert i == pos || r[i] == x;
      }
    }
  }
}

/** The bounded priority queue with all its indexes: the waiters, the levels, the deadlines, and the
    fairness state of the keys, found by key and by key id. */
module Scheduler {
  import opened Common
  import opened Scheduling
  import opened Levels
  import opened Bypass

  /** The recencies of the keys with state, by key id. */
  function Recencies<K>(keys: map<K, KeyState>, keyOf: map<nat, K>): map<nat, nat> {
    map id | id in keyOf && keyOf[id] in keys :: keys[keyOf[id]].recency
  }

  /** The deadlines are exactly the waiters' deadlines. */
  predicate Timed(deadlines: set<(nat, nat)>, waiters: map<nat, Waiter>) {
    && (forall e <- deadlines :: e.1 in waiters && waiters[e.1].deadline == Some(e.0))
    && (forall t <- waiters | waiters[t].deadline.Some? :: (waiters[t].deadline.value, t) in deadlines)
  }

  predicate Expired(w: Waiter, now: nat) {
    w.deadline.Some? && w.deadline.value <= now
  }

  function Unexpired(waiters: map<nat, Waiter>, now: nat): map<nat, Waiter> {
    map t | t in waiters && !Expired(waiters[t], now) :: waiters[t]
  }

  /** Whoever is no longer there has expired. */
  predicate OnlyExpiredGone(before: map<nat, Waiter>, after: map<nat, Waiter>, now: nat) {
    && (forall t <- after :: t in before && after[t] == before[t])
    && (forall t <- before :: t in after || Expired(before[t], now))
  }

  lemma NobodyGone(waiters: map<nat, Waiter>, now: nat)
    ensures OnlyExpiredGone(waiters, waiters, now)
  {
  }

  lemma ExpiredGoes(before: map<nat, Waiter>, after: map<nat, Waiter>, t: nat, now: nat)
    requires OnlyExpiredGone(before, after, now) && t in after && Expired(after[t], now)
    ensures OnlyExpiredGone(before, after - {t}, now)
  {
  }

  /** With the soonest deadline still to come, everybody left is in time. */
  lemma AllInTime(before: map<nat, Waiter>, after: map<nat, Waiter>, deadlines: set<(nat, nat)>, first: Option<(nat, nat)>, now: nat)
    requires OnlyExpiredGone(before, after, now) && Timed(deadlines, after) && (first.None? <==> deadlines == {})
    requires first.Some? ==> PairLeast(deadlines, first.value) && first.value.0 > now
    ensures after == Unexpired(before, now)
  {
    forall t | t in after ensures !Expired(after[t], now) {
      if after[t].deadline.Some? { assert (after[t].deadline.value, t) in deadlines; }
    }
  }

  function Leaves<K>(tickets: seq<nat>): seq<Move<K>> {
    seq(|tickets|, i requires 0 <= i < |tickets| => Leave(tickets[i]))
  }

  lemma NobodyLeaves<K>(q: State<K>)
    ensures ApplyAll(q, Leaves([])) == q
  {
  }

  lemma LeavesMore<K>(q: State<K>, gone: seq<nat>, ticket: nat)
    ensures ApplyAll(q, Leaves(gone + [ticket])) == Left(ApplyAll(q, Leaves(gone)), ticket)
  {
    assert Leaves<K>(gone + [ticket])[..|gone|] == Leaves<K>(gone);
  }

  lemma LeavesLegal<K>(q: State<K>, gone: seq<nat>, capacity: nat)
    ensures LegalAll(q, Leaves(gone), capacity)
  {
  }

  /** The two tables of recencies agree on every key that has a waiter. */
  predicate AgreeOnWaiters(waiters: map<nat, Waiter>, recency: map<nat, nat>, other: map<nat, nat>) {
    forall t <- waiters :: waiters[t].keyId in recency && waiters[t].keyId in other && other[waiters[t].keyId] == recency[waiters[t].keyId]
  }

  lemma ArrivedRecencies<K>(q: State<K>, priority: nat, deadline: Option<nat>, key: K)
    requires KeysMatch(q) && WaitersKeyed(q)
    ensures var t := Arrived(q, priority, deadline, key);
            && AgreeOnWaiters(q.waiters, Recencies(q.keys, q.keyOf), Recencies(t.keys, t.keyOf))
            && t.keys[key].id in Recencies(t.keys, t.keyOf)
            && Recencies(t.keys, t.keyOf)[t.keys[key].id] == t.keys[key].recency
  {
  }

  lemma ArrivedFields<K>(q: State<K>, priority: nat, deadline: Option<nat>, key: K)
    ensures var t := Arrived(q, priority, deadline, key);
            var keyState := if key in q.keys then q.keys[key].(waiting := q.keys[key].waiting + 1) else KeyState(q.nextKeyId, q.floor, 1);
            && t.waiters == q.waiters[q.nextSeq := Waiter(priority, deadline, keyState.id)]
            && t.keys == q.keys[key := keyState] && t.keyOf == q.keyOf[keyState.id := key]
            && t.floor == q.floor && t.serviceSeq == q.serviceSeq && t.pruneAt == q.pruneAt
            && t.nextSeq == q.nextSeq + 1 && t.nextKeyId == q.nextKeyId + if key in q.keys then 0 else 1
  {
  }

  /** An arrival leaves every recency as it was. */
  lemma ArrivedIndexed<K>(q: State<K>, levels: map<nat, Level>, priority: nat, deadline: Option<nat>, key: K)
    requires Consistent(q) && Leveled(levels, q.waiters, Recencies(q.keys, q.keyOf))
    ensures var t := Arrived(q, priority, deadline, key);
            Leveled(levels[priority := Joined(LevelAt(levels, priority), t.keys[key].id, t.keys[key].recency, q.nextSeq)],
                    t.waiters, Recencies(t.keys, t.keyOf))
  {
    var t := Arrived(q, priority, deadline, key);
    ArrivedRecencies(q, priority, deadline, key);
    assert forall ticket <- q.waiters :: ticket < q.nextSeq;
    hide Leveled, Consistent, Recencies;
    LevelsSameRecencies(levels, q.waiters, Recencies(q.keys, q.keyOf), Recencies(t.keys, t.keyOf));
    LevelsJoined(levels, q.waiters, Recencies(t.keys, t.keyOf), q.nextSeq, t.waiters[q.nextSeq]);
  }

  lemma PrunedRecencies<K>(q: State<K>)
    requires KeysMatch(q) && WaitersKeyed(q) && StampsKnown(q)
    ensures AgreeOnWaiters(q.waiters, Recencies(q.keys, q.keyOf), Recencies(KeysPruned(q).keys, KeysPruned(q).keyOf))
  {
    KeysPrunedConsistent(q);
  }

  /** Pruning touches no key that has a waiter. */
  lemma PrunedIndexed<K>(q: State<K>, levels: map<nat, Level>)
    requires KeysMatch(q) && WaitersKeyed(q) && StampsKnown(q) && Leveled(levels, q.waiters, Recencies(q.keys, q.keyOf))
    ensures Leveled(levels, KeysPruned(q).waiters, Recencies(KeysPruned(q).keys, KeysPruned(q).keyOf))
  {
    hide Leveled, Recencies;
    PrunedRecencies(q);
    LevelsSameRecencies(levels, q.waiters, Recencies(q.keys, q.keyOf), Recencies(KeysPruned(q).keys, KeysPruned(q).keyOf));
  }

  lemma StampedIndexed<K>(q: State<K>, levels: map<nat, Level>, key: K)
    requires Consistent(q) && Leveled(levels, q.waiters, Recencies(q.keys, q.keyOf)) && key in q.keys
    ensures var t := Stamped(q, key);
            Leveled(LevelsStamped(levels, q.keys[key].id, q.keys[key].recency, t.serviceSeq), t.waiters, Recencies(t.keys, t.keyOf))
  {
    hide Leveled;
    var t := Stamped(q, key);
    var id := q.keys[key].id;
    LevelsRestamped(levels, q.waiters, Recencies(q.keys, q.keyOf), id, t.serviceSeq);
    assert Recencies(t.keys, t.keyOf) == Recencies(q.keys, q.keyOf)[id := t.serviceSeq];
  }

  lemma UncountedRecencies<K>(q: State<K>, ticket: nat)
    requires KeysMatch(q) && ticket in q.waiters && q.waiters[ticket].keyId in q.keyOf
    ensures Recencies(Uncounted(q, ticket).keys, q.keyOf) == Recencies(q.keys, q.keyOf)
  {
  }

  lemma UncountedKept<K>(q: State<K>, ticket: nat)
    requires Consistent(q) && ticket in q.waiters
    ensures var u := Uncounted(q, ticket); KeysMatch(u) && WaitersKeyed(u) && StampsKnown(u)
  {
    UncountedMatches(q, ticket);
  }

  /** A waiter leaves its level; its key keeps its recency. */
  lemma UncountedIndexed<K>(q: State<K>, levels: map<nat, Level>, ticket: nat)
    requires Consistent(q) && Leveled(levels, q.waiters, Recencies(q.keys, q.keyOf)) && ticket in q.waiters
    ensures q.waiters[ticket].priority in levels
    ensures q.waiters[ticket].keyId in levels[q.waiters[ticket].priority].byKey
    ensures var u, w := Uncounted(q, ticket), q.waiters[ticket];
            Leveled(LevelsParted(levels, w, Recency(q, w.keyId), ticket), u.waiters, Recencies(u.keys, u.keyOf))
  {
    hide Leveled;
    UncountedRecencies(q, ticket);
    LevelOf(levels, q.waiters, Recencies(q.keys, q.keyOf), ticket);
    LevelsLeft(levels, q.waiters, Recencies(q.keys, q.keyOf), ticket);
  }

  /** The first waiter of the first key of the highest level holds the turn. */
  lemma HeadHoldsTurn<K>(q: State<K>, levels: map<nat, Level>, p: nat, e: (nat, nat))
    requires Consistent(q) && Leveled(levels, q.waiters, Recencies(q.keys, q.keyOf))
    requires Greatest(levels.Keys, p) && PairLeast(levels[p].order, e)
    ensures e.1 in levels[p].byKey && levels[p].byKey[e.1] != [] && HoldsTurn(q, levels[p].byKey[e.1][0])
  {
    var level, at := levels[p], AtPriority(q.waiters, p);
    HeadOfLevel(level, q.waiters, p, Recencies(q.keys, q.keyOf), e);
    var head := level.byKey[e.1][0];
    forall other | other in q.waiters && other != head ensures Precedes(q, head, other) {
      var w := q.waiters[other];
      assert w.priority <= p;
      if w.priority == p { assert at[other] == w.keyId; }
    }
  }

  lemma HeadOfLevel(level: Level, waiters: map<nat, Waiter>, p: nat, recency: map<nat, nat>, e: (nat, nat))
    requires LevelOk(level, waiters, p, recency) && PairLeast(level.order, e)
    ensures e.1 in level.byKey && level.byKey[e.1] != []
    ensures var at, head := AtPriority(waiters, p), level.byKey[e.1][0];
            && head in at && at[head] == e.1 && e.1 in recency && e.0 == recency[e.1]
            && (forall other <- at :: at[other] in recency)
            && forall other <- at | other != head ::
                 if at[other] == e.1 then head < other else KeyPrecedes(e.0, e.1, recency[at[other]], at[other])
  {
    var at := AtPriority(waiters, p);
    var line := level.byKey[e.1];
    assert IsLine(line, at, e.1);
    forall other | other in at && other != line[0]
      ensures at[other] in recency
      ensures if at[other] == e.1 then line[0] < other else KeyPrecedes(e.0, e.1, recency[at[other]], at[other])
    {
      assert at[other] in level.byKey && (recency[at[other]], at[other]) in level.order;
      if at[other] == e.1 {
        assert other in line;
        var i :| 0 <= i < |line| && line[i] == other;
      }
    }
  }

  lemma TimedArrived(deadlines: set<(nat, nat)>, waiters: map<nat, Waiter>, ticket: nat, w: Waiter)
    requires Timed(deadlines, waiters) && ticket !in waiters
    ensures Timed(if w.deadline.Some? then deadlines + {(w.deadline.value, ticket)} else deadlines, waiters[ticket := w])
  {
  }

  lemma TimedLeft(deadlines: set<(nat, nat)>, waiters: map<nat, Waiter>, ticket: nat)
    requires Timed(deadlines, waiters) && ticket in waiters
    ensures var w := waiters[ticket];
            Timed(if w.deadline.Some? then deadlines - {(w.deadline.value, ticket)} else deadlines, waiters - {ticket})
  {
  }

  /** What an operation needs of a consistent state. */
  lemma KnownKeys<K>(q: State<K>)
    requires Consistent(q)
    ensures q.nextSeq !in q.waiters
    ensures forall k <- q.keys :: q.keys[k].id in q.keyOf && q.keyOf[q.keys[k].id] == k
    ensures forall t <- q.waiters :: q.waiters[t].keyId in q.keyOf && q.keyOf[q.waiters[t].keyId] in q.keys
    ensures forall id <- q.keyOf :: q.keyOf[id] in q.keys && q.keys[q.keyOf[id]].id == id
  {
  }

  /** The lowest priority, and the newest there. */
  predicate IsWeakest(waiters: map<nat, Waiter>, ticket: nat) {
    && ticket in waiters
    && forall other <- waiters | other != ticket ::
         waiters[other].priority > waiters[ticket].priority || (waiters[other].priority == waiters[ticket].priority && other < ticket)
  }

  lemma LastOfLowestIsWeakest(levels: map<nat, Level>, waiters: map<nat, Waiter>, recency: map<nat, nat>, p: nat, ticket: nat)
    requires Leveled(levels, waiters, recency) && Least(levels.Keys, p) && Greatest(levels[p].tickets, ticket)
    ensures IsWeakest(waiters, ticket) && waiters[ticket].priority == p
  {
    assert LevelOk(levels[p], waiters, p, recency);
    forall other | other in waiters && other != ticket
      ensures waiters[other].priority > p || (waiters[other].priority == p && other < ticket)
    {
      assert waiters[other].priority in levels;
      if waiters[other].priority == p { assert other in AtPriority(waiters, p); }
    }
  }

  lemma NobodyNoLevels(levels: map<nat, Level>, waiters: map<nat, Waiter>, recency: map<nat, nat>)
    requires Leveled(levels, waiters, recency)
    ensures waiters == map[] <==> levels == map[]
    ensures forall p <- levels :: levels[p].tickets != {} && levels[p].order != {}
  {
    forall p | p in levels ensures levels[p].tickets != {} && levels[p].order != {} && waiters != map[] {
      assert LevelOk(levels[p], waiters, p, recency);
      var t :| t in levels[p].tickets;
      assert t in AtPriority(waiters, p);
    }
    if waiters != map[] {
      var t :| t in waiters;
      assert waiters[t].priority in levels;
    }
  }

  lemma KnownKey<K>(q: State<K>, key: K)
    requires Consistent(q)
    ensures q.nextSeq !in q.waiters && (key in q.keys ==> q.keys[key].id in q.keyOf && q.keyOf[q.keys[key].id] == key)
  {
  }

  lemma OneFewer(waiters: map<nat, Waiter>, ticket: nat)
    requires ticket in waiters
    ensures |waiters - {ticket}| == |waiters| - 1
  {
    assert (waiters - {ticket}).Keys == waiters.Keys - {ticket};
  }

  lemma KeysPrunedWaiters<K>(q: State<K>)
    ensures KeysPruned(q).waiters == q.waiters
  {
  }

  lemma LeftWaiters<K>(q: State<K>, ticket: nat)
    requires Consistent(q)
    ensures Left(q, ticket).waiters == q.waiters - {ticket}
  {
  }

  lemma OneMoreIdle<K>(all: map<K, KeyState>, before: map<K, KeyState>, after: map<K, KeyState>, k: K)
    requires k in all && k !in before && after == before[k := all[k]]
    ensures IdleRecencies(after) == IdleRecencies(before) + if all[k].waiting == 0 then {all[k].recency} else {}
  {
    forall r | r in IdleRecencies(after)
      ensures r in IdleRecencies(before) + if all[k].waiting == 0 then {all[k].recency} else {}
    {
      var l :| l in after && after[l].waiting == 0 && after[l].recency == r;
      if l != k { assert before[l] == after[l]; }
    }
    forall r | r in IdleRecencies(before) ensures r in IdleRecencies(after) {
      var l :| l in before && before[l].waiting == 0 && before[l].recency == r;
      assert after[l] == before[l];
    }
    if all[k].waiting == 0 { assert after[k].recency in IdleRecencies(after); }
  }

  lemma OneHighest(floor: nat, stamps: set<nat>, m: nat)
    requires IsHighest(floor, stamps, m)
    ensures m == Highest(floor, stamps)
  {
  }

  lemma HigherOrSame(floor: nat, stamps: set<nat>, m: nat, r: nat)
    requires IsHighest(floor, stamps, m)
    ensures IsHighest(floor, stamps + {r}, Max(m, r)) && IsHighest(floor, stamps + {}, m)
  {
    assert stamps + {} == stamps;
  }

  /** The keys kept while those in `todo` are still to be looked at. */
  function Retained<K>(all: map<K, KeyState>, todo: set<K>): map<K, KeyState> {
    map k | k in all && (k in todo || all[k].waiting > 0) :: all[k]
  }

  function Naming<K>(keyOf: map<nat, K>, keys: map<K, KeyState>): map<nat, K> {
    map id | id in keyOf && keyOf[id] in keys :: keyOf[id]
  }

  lemma RetainStep<K>(all: map<K, KeyState>, todo: set<K>, k: K, keyOf: map<nat, K>)
    requires k in todo && todo <= all.Keys
    requires forall l <- all :: all[l].id in keyOf && keyOf[all[l].id] == l
    requires forall id <- keyOf :: keyOf[id] in all && all[keyOf[id]].id == id
    ensures k in Retained(all, todo) && Retained(all, todo)[k] == all[k]
    ensures Retained(all, todo - {k}) == if all[k].waiting == 0 then Retained(all, todo) - {k} else Retained(all, todo)
    ensures Naming(keyOf, Retained(all, todo) - {k}) == Naming(keyOf, Retained(all, todo)) - {all[k].id}
  {
  }

  lemma RetainAll<K>(all: map<K, KeyState>, keyOf: map<nat, K>, floor: nat)
    requires forall id <- keyOf :: keyOf[id] in all
    ensures Retained(all, all.Keys) == all && Naming(keyOf, all) == keyOf
    ensures IsHighest(floor, IdleRecencies(all - all.Keys), floor)
  {
  }

  lemma RetainNone<K>(all: map<K, KeyState>)
    ensures Retained(all, {}) == Busy(all)
  {
  }

  class Scheduler<K(==)> {
    const pruneAt: nat
    var waiters: map<nat, Waiter>
    var levels: map<nat, Level>
    var deadlines: set<(nat, nat)>
    var keys: map<K, KeyState>
    var keyOf: map<nat, K>
    var floor: nat
    var serviceSeq: nat
    var nextSeq: nat
    var nextKeyId: nat
    /** The waiters told they were evicted. */
    var evicted: set<nat>

    constructor (capacity: nat)
      ensures Valid() && Abs() == Empty(capacity) && evicted == {}
    {
      pruneAt := 2 * capacity + 16;
      waiters, levels, deadlines, keys, keyOf, evicted := map[], map[], {}, map[], map[], {};
      floor, serviceSeq, nextSeq, nextKeyId := 0, 0, 0, 0;
    }

    ghost function Abs(): State<K>
      reads this
    {
      State(waiters, keys, keyOf, floor, serviceSeq, nextSeq, nextKeyId, pruneAt)
    }

    /** Every index agrees with the waiters and the keys. */
    ghost predicate Valid()
      reads this
    {
      Consistent(Abs()) && Timed(deadlines, waiters) && Leveled(levels, waiters, Recencies(keys, keyOf))
    }

    /** Enqueues a waiter. */
    method Insert(priority: nat, deadline: Option<nat>, key: K) returns (ticket: nat)
      requires Valid()
      modifies this
      ensures Valid() && evicted == old(evicted) && ticket == old(nextSeq)
      ensures Abs() == Arrived(old(Abs()), priority, deadline, key)
    {
      hide Leveled, Consistent, Recencies, Timed, Joined, LevelAt, Arrived;
      ghost var t := Arrived(Abs(), priority, deadline, key);
      KnownKey(Abs(), key);
      ArrivedFields(Abs(), priority, deadline, key);
      ArrivedIndexed(Abs(), levels, priority, deadline, key);
      ArrivedConsistent(Abs(), priority, deadline, key);
      TimedArrived(deadlines, waiters, nextSeq, t.waiters[nextSeq]);
      ticket := nextSeq;
      var keyId, recency := CountKey(key);
      assert keys == t.keys && keyOf == t.keyOf && nextKeyId == t.nextKeyId;
      Enqueue(ticket, Waiter(priority, deadline, keyId), recency);
      assert waiters == t.waiters && Abs() == t;
    }

    /** Counts one more waiter for a key, giving it state if it has none. */
    method CountKey(key: K) returns (keyId: nat, recency: nat)
      requires key in keys ==> keys[key].id in keyOf && keyOf[keys[key].id] == key
      modifies this`keys, this`keyOf, this`nextKeyId
      ensures keys == old(keys)[key := if key in old(keys) then old(keys)[key].(waiting := old(keys)[key].waiting + 1)
                                       else KeyState(old(nextKeyId), floor, 1)]
      ensures keyId == keys[key].id && recency == keys[key].recency && keyOf == old(keyOf)[keyId := key]
      ensures nextKeyId == old(nextKeyId) + if key in old(keys) then 0 else 1
    {
      if key in keys {
        keyId, recency := keys[key].id, keys[key].recency;
        keys := keys[key := keys[key].(waiting := keys[key].waiting + 1)];
        assert keyOf == keyOf[keyId := key];
      } else {
        keyId, recency := nextKeyId, floor;
        nextKeyId := nextKeyId + 1;
        keys := keys[key := KeyState(keyId, floor, 1)];
        keyOf := keyOf[keyId := key];
      }
    }

    /** Puts a waiter in the waiters, its level and the deadlines. */
    method Enqueue(ticket: nat, w: Waiter, recency: nat)
      modifies this`waiters, this`levels, this`deadlines, this`nextSeq
      ensures waiters == old(waiters)[ticket := w] && nextSeq == old(nextSeq) + 1
      ensures levels == old(levels)[w.priority := Joined(LevelAt(old(levels), w.priority), w.keyId, recency, ticket)]
      ensures deadlines == if w.deadline.Some? then old(deadlines) + {(w.deadline.value, ticket)} else old(deadlines)
    {
      nextSeq := nextSeq + 1;
      levels := levels[w.priority := Joined(LevelAt(levels, w.priority), w.keyId, recency, ticket)];
      if w.deadline.Some? {
        deadlines := deadlines + {(w.deadline.value, ticket)};
      }
      waiters := waiters[ticket := w];
    }

    /** One waiter fewer in all of the indexes at once; `was` is false, and nothing changes, if it had left before. */
    method Remove(ticket: nat) returns (was: bool)
      requires Valid()
      modifies this
      ensures Valid() && evicted == old(evicted) && was == (ticket in old(waiters))
      ensures Abs() == Left(old(Abs()), ticket)
    {
      hide Leveled, Recencies, Timed, Consistent, KeysPruned, Uncounted;
      was := ticket in waiters;
      if !was {
        return;
      }
      KnownKeys(Abs());
      LeftConsistent(Abs(), ticket);
      UncountedKept(Abs(), ticket);
      RemoveWaiter(ticket);
      PrunedIndexed(Abs(), levels);
      KeysPrunedWaiters(Abs());
      MaybePruneKeys();
    }

    /** Takes a waiter out of the waiters, its level, the deadlines and its key's count. */
    method RemoveWaiter(ticket: nat)
      requires Valid() && ticket in waiters
      modifies this`waiters, this`levels, this`deadlines, this`keys
      ensures Abs() == Uncounted(old(Abs()), ticket)
      ensures Timed(deadlines, waiters) && Leveled(levels, waiters, Recencies(keys, keyOf))
    {
      hide Leveled, Recencies, Timed, Consistent, LevelsParted;
      KnownKeys(Abs());
      var waiter := waiters[ticket];
      UncountedIndexed(Abs(), levels, ticket);
      TimedLeft(deadlines, waiters, ticket);
      waiters := waiters - {ticket};
      levels := LevelsParted(levels, waiter, KeysRecency(waiter.keyId), ticket);
      if waiter.deadline.Some? {
        deadlines := deadlines - {(waiter.deadline.value, ticket)};
      }
      var key := keyOf[waiter.keyId];
      keys := keys[key := keys[key].(waiting := Monus(keys[key].waiting, 1))];
    }

    /** When the key of this id was last served, as far as is still known. */
    function KeysRecency(keyId: nat): nat
      reads this
    {
      if keyId in keyOf && keyOf[keyId] in keys then keys[keyOf[keyId]].recency else floor
    }

    /** Keeps the key map in bounds: past them, it forgets the keys nobody waits for. */
    method MaybePruneKeys()
      requires KeysMatch(Abs())
      modifies this`keys, this`keyOf, this`floor
      ensures Abs() == KeysPruned(old(Abs()))
    {
      if |keys| <= pruneAt {
        return;
      }
      var highest := RetainBusy();
      floor := highest;
    }

    /** Keeps the keys with waiters; returns the newest stamp lost, or the floor. */
    method RetainBusy() returns (highest: nat)
      requires KeysMatch(Abs())
      modifies this`keys, this`keyOf
      ensures keys == Busy(old(keys)) && keyOf == Naming(old(keyOf), keys)
      ensures highest == Highest(floor, IdleRecencies(old(keys)))
    {
      hide Retained, Naming, IsHighest, IdleRecencies;
      RetainAll(old(keys), old(keyOf), floor);
      highest := floor;
      var todo := keys.Keys;
      while todo != {}
        invariant todo <= old(keys).Keys
        invariant keys == Retained(old(keys), todo) && keyOf == Naming(old(keyOf), keys)
        invariant IsHighest(floor, IdleRecencies(old(keys) - todo), highest)
        decreases |todo|
      {
        var k :| k in todo;
        RetainStep(old(keys), todo, k, old(keyOf));
        OneMoreIdle(old(keys), old(keys) - todo, old(keys) - (todo - {k}), k);
        HigherOrSame(floor, IdleRecencies(old(keys) - todo), highest, keys[k].recency);
        todo := todo - {k};
        if keys[k].waiting == 0 {
          highest := Max(highest, keys[k].recency);
          keyOf := keyOf - {keys[k].id};
          keys := keys - {k};
        }
      }
      assert old(keys) - todo == old(keys);
      RetainNone(old(keys));
      OneHighest(floor, IdleRecencies(old(keys)), highest);
    }

    /** Drops every waiter at or past its deadline, and no other. */
    method PruneExpired(now: nat) returns (ghost gone: seq<nat>)
      requires Valid()
      modifies this
      ensures Valid() && evicted == old(evicted)
      ensures waiters == Unexpired(old(waiters), now) && Abs() == ApplyAll(old(Abs()), Leaves(gone))
      ensures |gone| + |waiters| == |old(waiters)|
    {
      hide Consistent, Leveled, Recencies, Left, ApplyAll, Leaves, Unexpired, OnlyExpiredGone;
      gone := [];
      NobodyLeaves(Abs());
      NobodyGone(waiters, now);
      var first: Option<(nat, nat)> := FirstPair(deadlines);
      while first.Some? && first.value.0 <= now
        invariant Valid() && evicted == old(evicted)
        invariant first.None? <==> deadlines == {}
        invariant first.Some? ==> PairLeast(deadlines, first.value)
        invariant Abs() == ApplyAll(old(Abs()), Leaves(gone)) && |gone| + |waiters| == |old(waiters)|
        invariant OnlyExpiredGone(old(waiters), waiters, now)
        decreases |waiters|
      {
        LeftWaiters(Abs(), first.value.1);
        OneFewer(waiters, first.value.1);
        LeavesMore(old(Abs()), gone, first.value.1);
        ExpiredGoes(old(waiters), waiters, first.value.1, now);
        gone := gone + [first.value.1];
        var was := Remove(first.value.1);
        first := FirstPair(deadlines);
      }
      AllInTime(old(waiters), waiters, deadlines, first, now);
    }

    /** Whose turn it is among those still in time; everybody else leaves. */
    method Winner(now: nat) returns (holder: Option<nat>, ghost gone: seq<nat>)
      requires Valid()
      modifies this
      ensures Valid() && evicted == old(evicted)
      ensures waiters == Unexpired(old(waiters), now) && Abs() == ApplyAll(old(Abs()), Leaves(gone))
      ensures holder.None? <==> waiters == map[]
      ensures holder.Some? ==> HoldsTurn(Abs(), holder.value)
    {
      hide Consistent, Leveled, Recencies, Timed, HoldsTurn;
      gone := PruneExpired(now);
      holder := Head();
    }

    /** The first waiter of the first key of the highest level. */
    method Head() returns (holder: Option<nat>)
      requires Valid()
      ensures holder.None? <==> waiters == map[]
      ensures holder.Some? ==> HoldsTurn(Abs(), holder.value)
    {
      hide Consistent, Leveled, Recencies, Timed, HoldsTurn, PairLeast;
      NobodyNoLevels(levels, waiters, Recencies(keys, keyOf));
      var highest := Last(levels.Keys);
      if highest.None? {
        return None;
      }
      var level := levels[highest.value];
      var first: Option<(nat, nat)> := FirstPair(level.order);
      HeadHoldsTurn(Abs(), levels, highest.value, first.value);
      holder := Some(level.byKey[first.value.1][0]);
    }

    /** The service itself: the key moves behind all others wherever it waits, and only then the waiter goes, so
        that a key forgotten at that moment is forgotten with its new stamp. */
    method Serve(ticket: nat)
      requires Valid()
      modifies this
      ensures Valid() && evicted == old(evicted)
      ensures Abs() == Served(old(Abs()), ticket)
    {
      hide Leveled, Recencies, Timed, Consistent, Left, Stamped;
      KnownKeys(Abs());
      if ticket in waiters {
        Stamp(keyOf[waiters[ticket].keyId]);
        var was := Remove(ticket);
      }
    }

    /** Stamps a key and puts it in its new place in every level where it waits. */
    method Stamp(key: K)
      requires Valid() && key in keys
      modifies this`keys, this`levels, this`serviceSeq
      ensures Valid() && Abs() == Stamped(old(Abs()), key)
    {
      hide Leveled, Recencies, Timed, Consistent;
      StampedIndexed(Abs(), levels, key);
      StampedConsistent(Abs(), key);
      var id, was := keys[key].id, keys[key].recency;
      serviceSeq := serviceSeq + 1;
      keys := keys[key := keys[key].(recency := serviceSeq)];
      Restamp(id, was, serviceSeq);
    }

    method Restamp(id: nat, was: nat, stamp: nat)
      modifies this`levels
      ensures levels == LevelsStamped(old(levels), id, was, stamp)
    {
      var todo := levels.Keys;
      while todo != {}
        invariant todo <= old(levels).Keys
        invariant levels == map p | p in old(levels) :: if p in todo then old(levels)[p] else Restamped(old(levels)[p], id, was, stamp)
        decreases |todo|
      {
        var p :| p in todo;
        todo := todo - {p};
        levels := levels[p := Restamped(levels[p], id, was, stamp)];
      }
    }

    /** The oldest waiter. */
    method Oldest() returns (oldest: Option<nat>)
      ensures oldest.None? <==> waiters == map[]
      ensures oldest.Some? ==> Least(waiters.Keys, oldest.value)
    {
      oldest := First(waiters.Keys);
    }

    /** The weakest waiter: the lowest priority, the newest among equals. */
    method Weakest() returns (weakest: Option<(nat, nat)>)
      requires Valid()
      ensures weakest.None? <==> waiters == map[]
      ensures weakest.Some? ==> IsWeakest(waiters, weakest.value.0) && waiters[weakest.value.0].priority == weakest.value.1
    {
      NobodyNoLevels(levels, waiters, Recencies(keys, keyOf));
      var lowest := First(levels.Keys);
      if lowest.None? {
        return None;
      }
      assert lowest.value in levels;
      var newest := Last(levels[lowest.value].tickets);
      LastOfLowestIsWeakest(levels, waiters, Recencies(keys, keyOf), lowest.value, newest.value);
      weakest := Some((newest.value, lowest.value));
    }

    /** Evicts a waiter and tells it. */
    method Evict(ticket: nat)
      requires Valid()
      modifies this
      ensures Valid() && Abs() == Left(old(Abs()), ticket)
      ensures evicted == old(evicted) + if ticket in old(waiters) then {ticket} else {}
    {
      hide Consistent, Leveled, Recencies, Timed, Left;
      var was := Remove(ticket);
      if was {
        evicted := evicted + {ticket};
      }
    }
  }
}

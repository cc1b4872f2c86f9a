/** The priority queue's state without its indexes: the waiters, the fairness state of their keys, and
    what an arrival, a departure and a service do to them. */
module Scheduling {
  import opened Common

  datatype Waiter = Waiter(priority: nat, deadline: Option<nat>, keyId: nat)

  /** `recency`: the stamp of the key's last service. `waiting`: its waiters queued now. */
  datatype KeyState = KeyState(id: nat, recency: nat, waiting: nat)

  /** Waiters by arrival number. A key without state counts as last served at `floor`. */
  datatype State<K> = State(waiters: map<nat, Waiter>, keys: map<K, KeyState>, keyOf: map<nat, K>,
                            floor: nat, serviceSeq: nat, nextSeq: nat, nextKeyId: nat, pruneAt: nat)

  datatype Move<K> =
    | Arrive(priority: nat, deadline: Option<nat>, key: K)
    | Leave(ticket: nat)
    | Serve(ticket: nat)

  function Empty<K>(capacity: nat): State<K> {
    State(map[], map[], map[], 0, 0, 0, 0, 2 * capacity + 16)
  }

  function Arrived<K>(q: State<K>, priority: nat, deadline: Option<nat>, key: K): State<K> {
    var keyState := if key in q.keys then q.keys[key].(waiting := q.keys[key].waiting + 1) else KeyState(q.nextKeyId, q.floor, 1);
    q.(waiters := q.waiters[q.nextSeq := Waiter(priority, deadline, keyState.id)],
       keys := q.keys[key := keyState],
       keyOf := q.keyOf[keyState.id := key],
       nextSeq := q.nextSeq + 1,
       nextKeyId := if key in q.keys then q.nextKeyId else q.nextKeyId + 1)
  }

  /** A waiter out of the queue, its key's state still there. */
  function Uncounted<K>(q: State<K>, ticket: nat): State<K>
    requires ticket in q.waiters && q.waiters[ticket].keyId in q.keyOf && q.keyOf[q.waiters[ticket].keyId] in q.keys
  {
    var key := q.keyOf[q.waiters[ticket].keyId];
    q.(waiters := q.waiters - {ticket}, keys := q.keys[key := q.keys[key].(waiting := Monus(q.keys[key].waiting, 1))])
  }

  /** The recencies of the keys with no waiters. */
  function IdleRecencies<K>(keys: map<K, KeyState>): set<nat> {
    set k | k in keys && keys[k].waiting == 0 :: keys[k].recency
  }

  ghost predicate IsHighest(floor: nat, stamps: set<nat>, m: nat) {
    m >= floor && (m == floor || m in stamps) && forall s <- stamps :: s <= m
  }

  lemma {:induction false} HighestExists(floor: nat, stamps: set<nat>) returns (m: nat)
    ensures IsHighest(floor, stamps, m)
  {
    if stamps == {} {
      m := floor;
    } else {
      var s :| s in stamps;
      var below := HighestExists(floor, stamps - {s});
      m := if s > below then s else below;
      forall x | x in stamps ensures x <= m {
        assert x == s || x in stamps - {s};
      }
    }
  }

  ghost function Highest(floor: nat, stamps: set<nat>): (m: nat)
    ensures IsHighest(floor, stamps, m)
  {
    assert exists m: nat :: IsHighest(floor, stamps, m) by { var m := HighestExists(floor, stamps); }
    var m: nat :| IsHighest(floor, stamps, m);
    m
  }

  function Busy<K>(keys: map<K, KeyState>): map<K, KeyState> {
    map k | k in keys && keys[k].waiting > 0 :: keys[k]
  }

  /** Once the key map has outgrown its bound, keys with no waiters lose their state; the floor rises to
      the newest stamp lost. */
  ghost function KeysPruned<K>(q: State<K>): State<K> {
    if |q.keys| <= q.pruneAt then q
    else
      q.(keys := Busy(q.keys),
         keyOf := map id | id in q.keyOf && q.keyOf[id] in Busy(q.keys) :: q.keyOf[id],
         floor := Highest(q.floor, IdleRecencies(q.keys)))
  }

  ghost function Left<K>(q: State<K>, ticket: nat): State<K> {
    if ticket in q.waiters && q.waiters[ticket].keyId in q.keyOf && q.keyOf[q.waiters[ticket].keyId] in q.keys
    then KeysPruned(Uncounted(q, ticket)) else q
  }

  /** A key stamped as just served. */
  function Stamped<K>(q: State<K>, key: K): State<K>
    requires key in q.keys
  {
    q.(serviceSeq := q.serviceSeq + 1, keys := q.keys[key := q.keys[key].(recency := q.serviceSeq + 1)])
  }

  ghost function Served<K>(q: State<K>, ticket: nat): State<K> {
    if ticket in q.waiters && q.waiters[ticket].keyId in q.keyOf && q.keyOf[q.waiters[ticket].keyId] in q.keys
    then Left(Stamped(q, q.keyOf[q.waiters[ticket].keyId]), ticket) else q
  }

  ghost function Apply<K>(q: State<K>, m: Move<K>): State<K> {
    match m
    case Arrive(priority, deadline, key) => Arrived(q, priority, deadline, key)
    case Leave(ticket) => Left(q, ticket)
    case Serve(ticket) => Served(q, ticket)
  }

  ghost function ApplyAll<K>(q: State<K>, moves: seq<Move<K>>): State<K> {
    if moves == [] then q else Apply(ApplyAll(q, moves[..|moves| - 1]), moves[|moves| - 1])
  }

  lemma {:induction false} ApplyMore<K>(q: State<K>, first: seq<Move<K>>, more: seq<Move<K>>)
    ensures ApplyAll(q, first + more) == ApplyAll(ApplyAll(q, first), more)
  {
    if more == [] {
      assert first + more == first;
    } else {
      var n := |more| - 1;
      ApplyMore(q, first, more[..n]);
      assert (first + more)[..|first + more| - 1] == first + more[..n];
    }
  }

  // --- The order of turns ------------------------------------------------------------------------------

  function Recency<K>(q: State<K>, id: nat): nat {
    if id in q.keyOf && q.keyOf[id] in q.keys then q.keys[q.keyOf[id]].recency else q.floor
  }

  /** Higher priority first; then the key served longer ago; then the older key; then the earlier arrival. */
  predicate Precedes<K>(q: State<K>, a: nat, b: nat)
    requires a in q.waiters && b in q.waiters
  {
    var x, y := q.waiters[a], q.waiters[b];
    || x.priority > y.priority
    || (x.priority == y.priority && KeyPrecedes(Recency(q, x.keyId), x.keyId, Recency(q, y.keyId), y.keyId))
    || (x.priority == y.priority && x.keyId == y.keyId && a < b)
  }

  predicate KeyPrecedes(recencyA: nat, idA: nat, recencyB: nat, idB: nat) {
    recencyA < recencyB || (recencyA == recencyB && idA < idB)
  }

  predicate HoldsTurn<K>(q: State<K>, ticket: nat) {
    ticket in q.waiters && forall other <- q.waiters | other != ticket :: Precedes(q, ticket, other)
  }

  // --- What every move keeps ---------------------------------------------------------------------------

  function Members(waiters: map<nat, Waiter>, id: nat): set<nat> {
    set s | s in waiters && waiters[s].keyId == id
  }

  predicate KeysMatch<K>(q: State<K>) {
    && (forall k <- q.keys :: q.keys[k].id in q.keyOf && q.keyOf[q.keys[k].id] == k)
    && (forall id <- q.keyOf :: id < q.nextKeyId && q.keyOf[id] in q.keys && q.keys[q.keyOf[id]].id == id)
  }

  predicate WaitersKeyed<K>(q: State<K>) {
    && (forall s <- q.waiters :: s < q.nextSeq && q.waiters[s].keyId in q.keyOf)
    && (forall k <- q.keys :: q.keys[k].waiting == |Members(q.waiters, q.keys[k].id)|)
  }

  predicate StampsKnown<K>(q: State<K>) {
    q.floor <= q.serviceSeq && forall k <- q.keys :: q.keys[k].recency <= q.serviceSeq
  }

  /** Keys, ids and waiting counts agree, no stamp is newer than the last service, and the key map stays
      within its bound plus the waiters. */
  predicate Consistent<K>(q: State<K>) {
    KeysMatch(q) && WaitersKeyed(q) && StampsKnown(q) && |q.keys| <= q.pruneAt + |q.waiters|
  }

  lemma ArrivedMatches<K>(q: State<K>, priority: nat, deadline: Option<nat>, key: K)
    requires KeysMatch(q)
    ensures KeysMatch(Arrived(q, priority, deadline, key))
  {
  }

  lemma MemberAdded<K>(q: State<K>, ticket: nat, waiter: Waiter, id: nat)
    requires ticket !in q.waiters
    ensures Members(q.waiters[ticket := waiter], id) == Members(q.waiters, id) + if id == waiter.keyId then {ticket} else {}
  {
  }

  lemma ArrivedKeyed<K>(q: State<K>, priority: nat, deadline: Option<nat>, key: K)
    requires KeysMatch(q) && WaitersKeyed(q)
    ensures WaitersKeyed(Arrived(q, priority, deadline, key))
  {
    var t := Arrived(q, priority, deadline, key);
    assert q.nextSeq !in q.waiters;
    forall k | k in t.keys ensures t.keys[k].waiting == |Members(t.waiters, t.keys[k].id)| {
      var id := t.keys[k].id;
      MemberAdded(q, q.nextSeq, t.waiters[q.nextSeq], id);
      if k == key {
        if key !in q.keys { assert Members(q.waiters, id) == {}; }
      } else {
        assert k in q.keys && id != t.keys[key].id;
      }
    }
  }

  lemma SizeAfterUpdate<A, B>(m: map<A, B>, a: A, b: B)
    ensures |m[a := b]| == |m| + if a in m then 0 else 1
  {
    assert m[a := b].Keys == m.Keys + {a};
  }

  lemma ArrivedBounded<K>(q: State<K>, priority: nat, deadline: Option<nat>, key: K)
    requires q.nextSeq !in q.waiters
    ensures |Arrived(q, priority, deadline, key).keys| <= |q.keys| + 1
    ensures |Arrived(q, priority, deadline, key).waiters| == |q.waiters| + 1
  {
    var t := Arrived(q, priority, deadline, key);
    SizeAfterUpdate(q.keys, key, t.keys[key]);
    SizeAfterUpdate(q.waiters, q.nextSeq, t.waiters[q.nextSeq]);
  }

  lemma ArrivedConsistent<K>(q: State<K>, priority: nat, deadline: Option<nat>, key: K)
    requires Consistent(q)
    ensures Consistent(Arrived(q, priority, deadline, key))
  {
    ArrivedMatches(q, priority, deadline, key);
    ArrivedKeyed(q, priority, deadline, key);
    assert q.nextSeq !in q.waiters;
    ArrivedBounded(q, priority, deadline, key);
  }

  lemma UncountedMatches<K>(q: State<K>, ticket: nat)
    requires KeysMatch(q) && WaitersKeyed(q) && ticket in q.waiters
    ensures KeysMatch(Uncounted(q, ticket)) && WaitersKeyed(Uncounted(q, ticket))
  {
    var t := Uncounted(q, ticket);
    var key := q.keyOf[q.waiters[ticket].keyId];
    forall k | k in t.keys ensures t.keys[k].waiting == |Members(t.waiters, t.keys[k].id)| {
      var id := t.keys[k].id;
      if k == key {
        assert ticket in Members(q.waiters, id);
        assert Members(t.waiters, id) == Members(q.waiters, id) - {ticket};
      } else {
        assert Members(t.waiters, id) == Members(q.waiters, id);
      }
    }
  }

  function KeyIds(waiters: map<nat, Waiter>): set<nat> {
    set s | s in waiters :: waiters[s].keyId
  }

  lemma {:induction false} IdsAtMostWaiters(waiters: map<nat, Waiter>)
    ensures |KeyIds(waiters)| <= |waiters|
  {
    if waiters != map[] {
      var s :| s in waiters;
      var rest := waiters - {s};
      IdsAtMostWaiters(rest);
      forall w | w in waiters ensures waiters[w].keyId in KeyIds(rest) + {waiters[s].keyId} {
        if w != s { assert w in rest && rest[w] == waiters[w]; }
      }
      assert KeyIds(waiters) <= KeyIds(rest) + {waiters[s].keyId};
      SubsetSmaller(KeyIds(waiters), KeyIds(rest) + {waiters[s].keyId});
      assert waiters.Keys == rest.Keys + {s};
    }
  }

  lemma {:induction false} SubsetSmaller<T>(a: set<T>, b: set<T>)
    requires a <= b
    ensures |a| <= |b|
  {
    if a != {} {
      var x :| x in a;
      SubsetSmaller(a - {x}, b - {x});
    }
  }

  lemma {:induction false} KeysAtMostIds<K>(keys: map<K, KeyState>, ids: set<nat>)
    requires forall k <- keys :: keys[k].id in ids
    requires forall k, l | k in keys && l in keys && keys[k].id == keys[l].id :: k == l
    ensures |keys| <= |ids|
  {
    if keys != map[] {
      var k :| k in keys;
      KeysAtMostIds(keys - {k}, ids - {keys[k].id});
      assert keys.Keys == (keys - {k}).Keys + {k};
    }
  }

  /** When every key has a waiter, there are no more keys than waiters. */
  lemma BusyKeysBounded<K>(q: State<K>)
    requires KeysMatch(q) && WaitersKeyed(q) && forall k <- q.keys :: q.keys[k].waiting > 0
    ensures |q.keys| <= |q.waiters|
  {
    var ids := KeyIds(q.waiters);
    forall k | k in q.keys ensures q.keys[k].id in ids {
      assert Members(q.waiters, q.keys[k].id) != {};
      var s :| s in Members(q.waiters, q.keys[k].id);
      assert q.waiters[s].keyId == q.keys[k].id;
    }
    IdsAtMostWaiters(q.waiters);
    KeysAtMostIds(q.keys, ids);
  }

  lemma KeysPrunedConsistent<K>(q: State<K>)
    requires KeysMatch(q) && WaitersKeyed(q) && StampsKnown(q)
    ensures Consistent(KeysPruned(q))
    ensures |q.keys| > q.pruneAt ==> |KeysPruned(q).keys| <= |q.waiters|
  {
    var t := KeysPruned(q);
    if |q.keys| > q.pruneAt {
      forall s | s in q.waiters ensures q.waiters[s].keyId in t.keyOf {
        var key := q.keyOf[q.waiters[s].keyId];
        assert s in Members(q.waiters, q.keys[key].id);
        assert q.keys[key].waiting > 0;
      }
      assert KeysMatch(t);
      assert WaitersKeyed(t);
      BusyKeysBounded(t);
    }
  }

  /** Below the bound nothing is forgotten. Past it pruning takes the state of exactly the keys nobody waits for, and
      the floor rises to the newest stamp among them, and no further. */
  lemma FloorIsNewestLost<K(!new)>(q: State<K>)
    ensures |q.keys| <= q.pruneAt ==> KeysPruned(q) == q
    ensures var t := KeysPruned(q);
            |q.keys| > q.pruneAt ==>
            && (forall k <- q.keys :: k in t.keys <==> q.keys[k].waiting > 0)
            && (forall k <- q.keys | k !in t.keys :: q.keys[k].recency <= t.floor)
            && t.floor >= q.floor
            && (t.floor > q.floor ==> exists k :: k in q.keys && k !in t.keys && q.keys[k].recency == t.floor)
  {
    var t := KeysPruned(q);
    assert forall k <- q.keys | q.keys[k].waiting == 0 :: q.keys[k].recency in IdleRecencies(q.keys);
    if t.floor > q.floor {
      assert t.floor in IdleRecencies(q.keys);
      var k :| k in q.keys && q.keys[k].waiting == 0 && q.keys[k].recency == t.floor;
    }
  }

  /** What the turn is worth: nobody waits at a higher priority, nobody at the same one whose key was served longer
      ago, and nobody of the same key there came earlier. */
  lemma HolderOutranks<K>(q: State<K>, h: nat, other: nat)
    requires HoldsTurn(q, h) && other in q.waiters && other != h
    ensures var x, y := q.waiters[h], q.waiters[other];
            && y.priority <= x.priority
            && (y.priority == x.priority ==> Recency(q, x.keyId) <= Recency(q, y.keyId))
            && (y.priority == x.priority && y.keyId == x.keyId ==> h < other)
  {
    assert Precedes(q, h, other);
  }

  lemma LeftConsistent<K>(q: State<K>, ticket: nat)
    requires Consistent(q)
    ensures Consistent(Left(q, ticket))
  {
    if ticket in q.waiters {
      UncountedMatches(q, ticket);
      KeysPrunedConsistent(Uncounted(q, ticket));
    }
  }

  lemma StampedConsistent<K>(q: State<K>, key: K)
    requires Consistent(q) && key in q.keys
    ensures Consistent(Stamped(q, key))
  {
    assert Stamped(q, key).keys.Keys == q.keys.Keys;
  }

  lemma ApplyConsistent<K>(q: State<K>, m: Move<K>)
    requires Consistent(q)
    ensures Consistent(Apply(q, m))
  {
    match m
    case Arrive(priority, deadline, key) => ArrivedConsistent(q, priority, deadline, key);
    case Leave(ticket) => LeftConsistent(q, ticket);
    case Serve(ticket) =>
      if ticket in q.waiters {
        StampedConsistent(q, q.keyOf[q.waiters[ticket].keyId]);
        LeftConsistent(Stamped(q, q.keyOf[q.waiters[ticket].keyId]), ticket);
      }
  }
}

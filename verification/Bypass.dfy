/** Fairness over whole runs: while a key waits at some priority, how often others can be served before it
    there, whatever arrives, leaves, expires or is pruned meanwhile. */
module Bypass {
  import opened Scheduling

  /** The queue never holds more than its capacity, and only the holder of the turn is served. */
  predicate Legal<K>(q: State<K>, m: Move<K>, capacity: nat) {
    match m
    case Arrive(_, _, _) => |q.waiters| < capacity
    case Leave(_) => true
    case Serve(ticket) => HoldsTurn(q, ticket)
  }

  ghost predicate Runs<K>(capacity: nat, states: seq<State<K>>, moves: seq<Move<K>>) {
    && |states| == |moves| + 1 && Consistent(states[0]) && |states[0].waiters| <= capacity
    && forall i | 0 <= i < |moves| :: Legal(states[i], moves[i], capacity) && states[i + 1] == Apply(states[i], moves[i])
  }

  ghost predicate HasWaiter<K>(q: State<K>, key: K, priority: nat) {
    exists t <- q.waiters :: OfKey(q, t, key) && q.waiters[t].priority == priority
  }

  predicate OfKey<K(==)>(q: State<K>, ticket: nat, key: K)
    requires ticket in q.waiters
  {
    q.waiters[ticket].keyId in q.keyOf && q.keyOf[q.waiters[ticket].keyId] == key
  }

  predicate ServesKey<K(==)>(q: State<K>, m: Move<K>, key: K) {
    m.Serve? && m.ticket in q.waiters && OfKey(q, m.ticket, key)
  }

  /** The key served at this priority, if the move is such a service. */
  function PassedBy<K>(q: State<K>, m: Move<K>, priority: nat): seq<K> {
    if m.Serve? && m.ticket in q.waiters && q.waiters[m.ticket].priority == priority && q.waiters[m.ticket].keyId in q.keyOf
    then [q.keyOf[q.waiters[m.ticket].keyId]] else []
  }

  /** The keys served at this priority, in order. */
  function Passed<K>(states: seq<State<K>>, moves: seq<Move<K>>, priority: nat): seq<K>
    requires |states| == |moves| + 1
  {
    if moves == [] then []
    else
      var n := |moves| - 1;
      Passed(states[..|moves|], moves[..n], priority) + PassedBy(states[n], moves[n], priority)
  }

  predicate NoRepeats<K(==)>(s: seq<K>) {
    forall i, j | 0 <= i < j < |s| :: s[i] != s[j]
  }

  function KeyRecency<K>(keys: map<K, KeyState>, floor: nat, key: K): nat {
    if key in keys then keys[key].recency else floor
  }

  function Ahead<K>(keys: map<K, KeyState>, r: nat): set<K> {
    set k | k in keys && keys[k].recency <= r
  }

  /** Every key that passed is behind `r`, for good; and either all of them still have state, or the floor
      has passed `r`, so that only the keys ahead now can still pass. */
  predicate Behind<K>(keys: map<K, KeyState>, floor: nat, passed: seq<K>, r: nat, bound: nat) {
    && NoRepeats(passed)
    && (forall k <- passed :: KeyRecency(keys, floor, k) > r)
    && ((forall k <- passed :: k in keys) || (floor > r && |passed| + |Ahead(keys, r)| <= bound))
  }

  lemma {:induction false} DistinctFit<K>(s: seq<K>, all: set<K>)
    requires NoRepeats(s) && forall k <- s :: k in all
    ensures |s| <= |all|
  {
    if s != [] {
      var n := |s| - 1;
      forall k | k in s[..n] ensures k in all - {s[n]} {}
      DistinctFit(s[..n], all - {s[n]});
    }
  }

  /** Pruning keeps every key that passed behind; when it drops one of them, the floor takes over. */
  lemma PruneKeepsBehind<K>(q: State<K>, passed: seq<K>, r: nat, capacity: nat)
    requires Behind(q.keys, q.floor, passed, r, q.pruneAt + 2 * capacity)
    requires |q.keys| <= q.pruneAt + capacity && |q.keys| > q.pruneAt ==> |KeysPruned(q).keys| <= capacity
    requires |q.keys| <= q.pruneAt + capacity
    ensures Behind(KeysPruned(q).keys, KeysPruned(q).floor, passed, r, q.pruneAt + 2 * capacity)
  {
    var t := KeysPruned(q);
    if |q.keys| > q.pruneAt {
      forall k | k in passed ensures KeyRecency(t.keys, t.floor, k) > r {
        if k in q.keys && k !in t.keys {
          assert q.keys[k].recency in IdleRecencies(q.keys);
        }
      }
      if forall k <- passed :: k in q.keys {
        DistinctFit(passed, q.keys.Keys);
        SubsetSmaller(Ahead(t.keys, r), t.keys.Keys);
        if k :| k in passed && k !in t.keys {
          assert q.keys[k].recency in IdleRecencies(q.keys);
          assert t.floor > r;
        }
      } else {
        SubsetSmaller(Ahead(t.keys, r), Ahead(q.keys, r));
      }
    }
  }

  lemma ArriveKeepsBehind<K>(q: State<K>, m: Move<K>, passed: seq<K>, r: nat, bound: nat)
    requires m.Arrive? && Behind(q.keys, q.floor, passed, r, bound)
    ensures Behind(Apply(q, m).keys, Apply(q, m).floor, passed, r, bound)
  {
    var t := Apply(q, m);
    if q.floor > r {
      assert Ahead(t.keys, r) == Ahead(q.keys, r);
    }
  }

  lemma UncountKeepsBehind<K>(q: State<K>, ticket: nat, passed: seq<K>, r: nat, bound: nat)
    requires ticket in q.waiters && q.waiters[ticket].keyId in q.keyOf && q.keyOf[q.waiters[ticket].keyId] in q.keys
    requires Behind(q.keys, q.floor, passed, r, bound)
    ensures Behind(Uncounted(q, ticket).keys, q.floor, passed, r, bound)
    ensures |Uncounted(q, ticket).keys| == |q.keys| && |Uncounted(q, ticket).waiters| <= |q.waiters|
  {
    var u := Uncounted(q, ticket);
    assert u.keys.Keys == q.keys.Keys;
    assert Ahead(u.keys, r) == Ahead(q.keys, r);
    SubsetSmaller(u.waiters.Keys, q.waiters.Keys);
  }

  lemma LeaveKeepsBehind<K>(q: State<K>, ticket: nat, passed: seq<K>, r: nat, capacity: nat)
    requires Consistent(q) && |q.waiters| <= capacity
    requires Behind(q.keys, q.floor, passed, r, q.pruneAt + 2 * capacity)
    ensures Behind(Left(q, ticket).keys, Left(q, ticket).floor, passed, r, q.pruneAt + 2 * capacity)
  {
    if ticket in q.waiters {
      UncountedMatches(q, ticket);
      KeysPrunedConsistent(Uncounted(q, ticket));
      UncountKeepsBehind(q, ticket, passed, r, q.pruneAt + 2 * capacity);
      PruneKeepsBehind(Uncounted(q, ticket), passed, r, capacity);
    }
  }

  /** A key stamped as served goes behind, and one that was ahead is ahead no more. */
  lemma StampPutsBehind<K>(q: State<K>, key: K, passed: seq<K>, r: nat, bound: nat)
    requires StampsKnown(q) && key in q.keys && r <= q.serviceSeq && Behind(q.keys, q.floor, passed, r, bound)
    ensures Behind(Stamped(q, key).keys, q.floor, passed, r, bound)
    ensures q.keys[key].recency <= r ==> Behind(Stamped(q, key).keys, q.floor, passed + [key], r, bound)
  {
    var t := Stamped(q, key);
    assert Ahead(t.keys, r) == Ahead(q.keys, r) - {key};
    if q.keys[key].recency <= r {
      assert key in Ahead(q.keys, r) && key !in passed;
    }
  }

  /** Whoever is served at the priority where `key` waits was served no later than `key`. */
  lemma PasserIsAhead<K>(q: State<K>, ticket: nat, key: K, priority: nat)
    requires Consistent(q) && HoldsTurn(q, ticket) && q.waiters[ticket].priority == priority
    requires HasWaiter(q, key, priority) && !OfKey(q, ticket, key)
    ensures key in q.keys && q.keys[q.keyOf[q.waiters[ticket].keyId]].recency <= q.keys[key].recency
  {
    var t :| t in q.waiters && OfKey(q, t, key) && q.waiters[t].priority == priority;
    assert Precedes(q, ticket, t);
  }

  lemma HolderHasState<K>(q: State<K>, key: K, priority: nat)
    requires Consistent(q) && HasWaiter(q, key, priority)
    ensures key in q.keys
  {
  }

  lemma StepKeepsBehind<K>(q: State<K>, m: Move<K>, capacity: nat, key: K, priority: nat, passed: seq<K>)
    requires Consistent(q) && Legal(q, m, capacity) && |q.waiters| <= capacity
    requires HasWaiter(q, key, priority) && !ServesKey(q, m, key) && key in q.keys
    requires Behind(q.keys, q.floor, passed, q.keys[key].recency, q.pruneAt + 2 * capacity)
    ensures Behind(Apply(q, m).keys, Apply(q, m).floor, passed + PassedBy(q, m, priority), q.keys[key].recency,
                   q.pruneAt + 2 * capacity)
  {
    var r, bound := q.keys[key].recency, q.pruneAt + 2 * capacity;
    assert passed + [] == passed;
    match m
    case Arrive(_, _, _) => ArriveKeepsBehind(q, m, passed, r, bound);
    case Leave(ticket) => LeaveKeepsBehind(q, ticket, passed, r, capacity);
    case Serve(ticket) =>
      var served := q.keyOf[q.waiters[ticket].keyId];
      StampPutsBehind(q, served, passed, r, bound);
      StampedConsistent(q, served);
      var more := passed + PassedBy(q, m, priority);
      if q.waiters[ticket].priority == priority {
        PasserIsAhead(q, ticket, key, priority);
      }
      LeaveKeepsBehind(Stamped(q, served), ticket, more, r, capacity);
  }

  /** A key that is not served keeps its recency as long as it has state. */
  lemma UnservedKeepsRecency<K>(q: State<K>, m: Move<K>, key: K)
    requires Consistent(q) && key in q.keys && !ServesKey(q, m, key) && key in Apply(q, m).keys
    ensures Apply(q, m).keys[key].recency == q.keys[key].recency
  {
  }

  lemma SizeKept<K>(q: State<K>, m: Move<K>, capacity: nat)
    requires Consistent(q) && Legal(q, m, capacity) && |q.waiters| <= capacity
    ensures |Apply(q, m).waiters| <= capacity && Apply(q, m).pruneAt == q.pruneAt
  {
    match m
    case Arrive(priority, deadline, key) => ArrivedBounded(q, priority, deadline, key);
    case _ => SubsetSmaller(Apply(q, m).waiters.Keys, q.waiters.Keys);
  }

  lemma PruneKeepsRecency<K>(q: State<K>, key: K)
    ensures KeyRecency(KeysPruned(q).keys, KeysPruned(q).floor, key) >= KeyRecency(q.keys, q.floor, key)
  {
    if key in q.keys && key !in KeysPruned(q).keys {
      assert q.keys[key].recency in IdleRecencies(q.keys);
    }
  }

  /** A key's recency never falls: state lost to pruning and re-created later is never older than the key's
      last service. */
  lemma RecencyNeverFalls<K>(q: State<K>, m: Move<K>, key: K)
    requires Consistent(q)
    ensures KeyRecency(Apply(q, m).keys, Apply(q, m).floor, key) >= KeyRecency(q.keys, q.floor, key)
  {
    if !m.Arrive? && m.ticket in q.waiters {
      var before := if m.Leave? then q else Stamped(q, q.keyOf[q.waiters[m.ticket].keyId]);
      PruneKeepsRecency(Uncounted(before, m.ticket), key);
    }
  }

  predicate Fits<K>(q: State<K>, capacity: nat, pruneAt: nat) {
    Consistent(q) && |q.waiters| <= capacity && q.pruneAt == pruneAt
  }

  lemma StepFits<K>(q: State<K>, m: Move<K>, capacity: nat, pruneAt: nat)
    requires Fits(q, capacity, pruneAt) && Legal(q, m, capacity)
    ensures Fits(Apply(q, m), capacity, pruneAt)
  {
    ApplyConsistent(q, m);
    SizeKept(q, m, capacity);
  }

  /** Every state of a run is consistent and within capacity, so the key map never outgrows `pruneAt` plus the
      waiters. */
  lemma {:induction false} RunKeeps<K>(capacity: nat, states: seq<State<K>>, moves: seq<Move<K>>, i: nat)
    requires Runs(capacity, states, moves) && i < |states|
    ensures Fits(states[i], capacity, states[0].pruneAt)
    ensures |states[i].keys| <= states[i].pruneAt + |states[i].waiters|
  {
    if i > 0 {
      RunKeeps(capacity, states, moves, i - 1);
      StepFits(states[i - 1], moves[i - 1], capacity, states[0].pruneAt);
    }
  }

  /** `key` waits at this priority all along, and is not served. */
  ghost predicate WaitsUnserved<K>(states: seq<State<K>>, moves: seq<Move<K>>, key: K, priority: nat)
    requires |states| == |moves| + 1
  {
    forall i | 0 <= i < |moves| :: HasWaiter(states[i], key, priority) && !ServesKey(states[i], moves[i], key)
  }

  lemma {:induction false} RunKeepsBehind<K>(capacity: nat, states: seq<State<K>>, moves: seq<Move<K>>, key: K, priority: nat)
    requires Runs(capacity, states, moves) && WaitsUnserved(states, moves, key, priority) && key in states[0].keys
    ensures var r, n := states[0].keys[key].recency, |moves|;
            && Behind(states[n].keys, states[n].floor, Passed(states, moves, priority), r, states[0].pruneAt + 2 * capacity)
            && (key in states[n].keys ==> states[n].keys[key].recency == r)
  {
    if moves != [] {
      var n := |moves| - 1;
      RunKeeps(capacity, states, moves, n);
      var before := states[..|moves|];
      assert before[0] == states[0] && before[n] == states[n];
      RunKeepsBehind(capacity, before, moves[..n], key, priority);
      HolderHasState(states[n], key, priority);
      StepKeepsBehind(states[n], moves[n], capacity, key, priority, Passed(before, moves[..n], priority));
      if key in states[n + 1].keys { UnservedKeepsRecency(states[n], moves[n], key); }
    }
  }

  /** While a key waits at a priority and is not served, every other key is served there at most once, and at
      most `pruneAt + 2 * capacity` such services happen in all, even under an endless stream of new keys. */
  lemma BoundedBypass<K>(capacity: nat, states: seq<State<K>>, moves: seq<Move<K>>, key: K, priority: nat)
    requires Runs(capacity, states, moves) && WaitsUnserved(states, moves, key, priority)
    ensures NoRepeats(Passed(states, moves, priority))
    ensures |Passed(states, moves, priority)| <= states[0].pruneAt + 2 * capacity
  {
    if moves != [] {
      RunKeeps(capacity, states, moves, |moves|);
      assert HasWaiter(states[0], key, priority);
      HolderHasState(states[0], key, priority);
      RunKeepsBehind(capacity, states, moves, key, priority);
      var last := states[|moves|];
      if forall k <- Passed(states, moves, priority) :: k in last.keys {
        DistinctFit(Passed(states, moves, priority), last.keys.Keys);
      }
    }
  }

  // --- Runs given by their moves -----------------------------------------------------------------------

  ghost predicate LegalAll<K>(q: State<K>, moves: seq<Move<K>>, capacity: nat) {
    forall i | 0 <= i < |moves| :: Legal(ApplyAll(q, moves[..i]), moves[i], capacity)
  }

  ghost function StatesOf<K>(q: State<K>, moves: seq<Move<K>>): seq<State<K>> {
    seq(|moves| + 1, i requires 0 <= i <= |moves| => ApplyAll(q, moves[..i]))
  }

  /** Legal moves from a consistent state make a run. */
  lemma RunsFromMoves<K>(capacity: nat, q: State<K>, moves: seq<Move<K>>)
    requires Consistent(q) && |q.waiters| <= capacity && LegalAll(q, moves, capacity)
    ensures Runs(capacity, StatesOf(q, moves), moves)
    ensures StatesOf(q, moves)[0] == q && StatesOf(q, moves)[|moves|] == ApplyAll(q, moves)
  {
    var states := StatesOf(q, moves);
    assert moves[..|moves|] == moves;
    forall i | 0 <= i < |moves| ensures Legal(states[i], moves[i], capacity) && states[i + 1] == Apply(states[i], moves[i]) {
      assert moves[..i + 1][..i] == moves[..i];
    }
  }

  lemma LegalMore<K>(q: State<K>, first: seq<Move<K>>, more: seq<Move<K>>, capacity: nat)
    requires LegalAll(q, first, capacity) && LegalAll(ApplyAll(q, first), more, capacity)
    ensures LegalAll(q, first + more, capacity)
  {
    forall i | 0 <= i < |first + more| ensures Legal(ApplyAll(q, (first + more)[..i]), (first + more)[i], capacity) {
      if i < |first| {
        assert (first + more)[..i] == first[..i];
      } else {
        assert (first + more)[..i] == first + more[..i - |first|];
        ApplyMore(q, first, more[..i - |first|]);
      }
    }
  }

  lemma OneMove<K>(q: State<K>, m: Move<K>, capacity: nat)
    ensures ApplyAll(q, [m]) == Apply(q, m)
    ensures LegalAll(q, [m], capacity) <==> Legal(q, m, capacity)
  {
    assert [m][..0] == [];
  }
}

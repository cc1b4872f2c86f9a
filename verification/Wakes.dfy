/** Whether the waiter whose turn it is has been told, over every sequence of calls on the queue. */
module Wakes {
  import opened Common
  import opened Scheduling
  import opened Levels
  import opened Bypass
  import opened Scheduler
  import opened Queue

  /** A call, whom it woke, and the state it left. */
  datatype Step<K> = Step(call: Call, woken: Option<nat>, after: State<K>)

  function Before<K>(q: State<K>, log: seq<Step<K>>): State<K>
    requires log != []
  {
    if |log| == 1 then q else log[|log| - 2].after
  }

  function After<K>(q: State<K>, log: seq<Step<K>>): State<K> {
    if log == [] then q else log[|log| - 1].after
  }

  /** These calls, one after another, from `q`. */
  ghost predicate Calls<K(!new)>(q: State<K>, log: seq<Step<K>>)
    decreases |log|
  {
    log != [] ==>
      var last := log[|log| - 1];
      Effect(Before(q, log), last.after, last.woken, last.call) && Calls(q, log[..|log| - 1])
  }

  /** The call wakes this waiter, or is its own look at the turn. */
  predicate Tells<K>(s: Step<K>, h: nat) {
    s.woken == Some(h) || (s.call.Turn? && s.call.ticket == h)
  }

  /** The holder of the turn has been told since it has held it. */
  ghost predicate Knows<K(!new)>(q: State<K>, log: seq<Step<K>>, h: nat)
    decreases |log|
  {
    && log != [] && HoldsTurn(After(q, log), h)
    && (Tells(log[|log| - 1], h) || (HoldsTurn(Before(q, log), h) && Knows(q, log[..|log| - 1], h)))
  }

  /** The call is another waiter's look at the turn, whose holder had expired. */
  ghost predicate DropsHolder<K(!new)>(q: State<K>, s: Step<K>, h: nat) {
    && s.call.Turn? && !s.call.served && s.call.ticket != h
    && exists g <- q.waiters :: g != h && HoldsTurn(q, g) && Expired(q.waiters[g], s.call.now)
  }

  /** The turn came to this waiter when another one's look dropped the expired holder, and nothing has told it
      since. */
  ghost predicate Overlooked<K(!new)>(q: State<K>, log: seq<Step<K>>, h: nat)
    decreases |log|
  {
    && log != [] && HoldsTurn(After(q, log), h)
    && (DropsHolder(Before(q, log), log[|log| - 1], h)
        || (!Tells(log[|log| - 1], h) && HoldsTurn(Before(q, log), h) && Overlooked(q, log[..|log| - 1], h)))
  }

  lemma PrecedesTransitively<K>(q: State<K>, a: nat, b: nat, c: nat)
    requires a in q.waiters && b in q.waiters && c in q.waiters && Precedes(q, a, b) && Precedes(q, b, c)
    ensures Precedes(q, a, c)
  {
  }

  lemma PrecedesTotally<K>(q: State<K>, a: nat, b: nat)
    requires a in q.waiters && b in q.waiters && a != b
    ensures Precedes(q, a, b) <==> !Precedes(q, b, a)
  {
  }

  lemma {:induction false} FirstOf<K>(q: State<K>, some: set<nat>) returns (first: nat)
    requires some != {} && some <= q.waiters.Keys
    ensures first in some && forall other <- some | other != first :: Precedes(q, first, other)
  {
    var x :| x in some;
    first := x;
    if some != {x} {
      var y := FirstOf(q, some - {x});
      PrecedesTotally(q, x, y);
      if Precedes(q, y, x) {
        first := y;
      } else {
        forall other | other in some && other != x ensures Precedes(q, x, other) {
          if other != y { PrecedesTransitively(q, x, y, other); }
        }
      }
    }
  }

  /** Unless nobody waits, somebody holds the turn. */
  lemma SomebodyHoldsTurn<K>(q: State<K>) returns (h: nat)
    requires q.waiters != map[]
    ensures HoldsTurn(q, h)
  {
    h := FirstOf(q, q.waiters.Keys);
  }

  /** A look that is not served and leaves the turn with somebody else has dropped an expired holder. */
  lemma NewHolderAfterLook<K(!new)>(q: State<K>, s: Step<K>, h: nat)
    requires Effect(q, s.after, s.woken, s.call) && s.call.Turn? && !s.call.served && s.call.ticket != h
    requires HoldsTurn(s.after, h) && !HoldsTurn(q, h)
    ensures DropsHolder(q, s, h)
  {
    assert h in q.waiters;
    var g := SomebodyHoldsTurn(q);
    if !Expired(q.waiters[g], s.call.now) {
      assert g in s.after.waiters && HoldsTurn(s.after, g);
      OneHolder(s.after, h, Some(g));
    }
  }

  lemma OneOnly<K>(q: State<K>, g: nat, h: nat)
    requires HoldsTurn(q, g) && HoldsTurn(q, h)
    ensures g == h
  {
    OneHolder(q, h, Some(g));
  }

  /** Exactly when the waiter whose turn it is has not been told, over every sequence of calls on a queue that
      starts empty: the turn came to it in another waiter's look that dropped the expired holder. */
  lemma {:induction false} UntoldIffOverlooked<K(!new)>(capacity: nat, log: seq<Step<K>>, h: nat)
    requires Calls(Empty(capacity), log) && HoldsTurn(After(Empty(capacity), log), h)
    ensures !Knows(Empty(capacity), log, h) <==> Overlooked(Empty(capacity), log, h)
    decreases |log|
  {
    var q := Empty<K>(capacity);
    assert log != [];
    var last, before := log[|log| - 1], Before(q, log);
    assert before == After(q, log[..|log| - 1]);
    if last.call.Turn? && !last.call.served {
      if last.call.ticket != h {
        if HoldsTurn(before, h) {
          UntoldIffOverlooked(capacity, log[..|log| - 1], h);
          assert !DropsHolder(before, last, h) by {
            forall g | g in before.waiters && HoldsTurn(before, g) ensures g == h { OneOnly(before, g, h); }
          }
        } else {
          NewHolderAfterLook(before, last, h);
        }
      }
    } else if last.woken.Some? {
      OneOnly(last.after, last.woken.value, h);
    } else {
      UntoldIffOverlooked(capacity, log[..|log| - 1], h);
    }
  }

  // --- An untold holder, on an actual queue ---------------------------------------------------------------

  lemma CallsMore<K(!new)>(q: State<K>, log: seq<Step<K>>, s: Step<K>)
    requires Calls(q, log) && Effect(After(q, log), s.after, s.woken, s.call)
    ensures Calls(q, log + [s]) && After(q, log + [s]) == s.after && Before(q, log + [s]) == After(q, log)
  {
    hide Effect;
    assert (log + [s])[..|log|] == log;
  }

  /** At instant zero a waiter joins a queue with room, in which nobody else has a deadline that early. */
  method JoinAtZero<K(==,!new)>(queue: Queue<K>, priority: nat, deadline: Option<nat>, key: K, ghost start: State<K>,
                                ghost before: seq<Step<K>>) returns (ticket: nat, ghost log: seq<Step<K>>)
    requires queue.Valid() && |queue.state.waiters| < queue.capacity
    requires Unexpired(queue.state.waiters, 0) == queue.state.waiters && deadline != Some(0)
    requires Calls(start, before) && After(start, before) == queue.state.Abs()
    modifies queue.state
    ensures queue.Valid() && queue.state.evicted == old(queue.state.evicted)
    ensures ticket !in old(queue.state.waiters) && ticket in queue.state.waiters
    ensures queue.state.waiters == old(queue.state.waiters)[ticket := queue.state.waiters[ticket]]
    ensures queue.state.waiters[ticket].priority == priority && queue.state.waiters[ticket].deadline == deadline
    ensures Unexpired(queue.state.waiters, 0) == queue.state.waiters
    ensures Calls(start, log) && After(start, log) == queue.state.Abs()
  {
    hide Leveled, Recencies, Timed, Consistent, ApplyAll, LegalAll, Leaves;
    hide Calls, Effect, Joins, IsVictim, HoldsTurn, After, Unexpired;
    ghost var was := queue.state.waiters;
    var joined, woken;
    ghost var moves, gone, victim, late;
    joined, woken, moves, gone, victim, late := queue.Register(0, priority, deadline, key);
    ticket := joined.value;
    ghost var s := Step(Join(true), woken, queue.state.Abs());
    CallsMore(start, before, s);
    log := before + [s];
    assert victim.None? ==> was - Turned(victim) == was;
    EnteredAtZero(was, queue.state.waiters, ticket, priority, deadline);
  }

  lemma EnteredAtZero(before: map<nat, Waiter>, after: map<nat, Waiter>, ticket: nat, priority: nat, deadline: Option<nat>)
    requires Entered(before, after, ticket, priority, deadline, 0) && Unexpired(before, 0) == before && deadline != Some(0)
    ensures ticket !in before && ticket in after && after == before[ticket := after[ticket]]
    ensures after[ticket].priority == priority && after[ticket].deadline == deadline && Unexpired(after, 0) == after
  {
    var id :| after == Unexpired(before[ticket := Waiter(priority, deadline, id)], 0);
    assert forall t <- before :: t in Unexpired(before, 0);
    assert after == before[ticket := Waiter(priority, deadline, id)];
  }

  lemma HighestHoldsTurn<K>(q: State<K>, h: nat)
    requires h in q.waiters && forall other <- q.waiters | other != h :: q.waiters[h].priority > q.waiters[other].priority
    ensures HoldsTurn(q, h)
    ensures forall other <- q.waiters | other != h :: !HoldsTurn(q, other)
  {
    forall other | other in q.waiters && other != h ensures !HoldsTurn(q, other) {
      assert !Precedes(q, other, h);
    }
  }

  /** Three waiters join, one below the other in priority, and the first one's deadline passes. The third looks,
      which drops the first: the turn is the second one's, who is not told; nor when the first one's task departs.
      Whatever the limiter's answers and the overflow policy, on any queue with room for three. */
  method Overlook<K(==,!new)>(capacity: nat, overflow: Overflow, key: K, decision: Decision)
    returns (queue: Queue<K>, second: nat, ghost log: seq<Step<K>>)
    requires capacity >= 3
    ensures fresh(queue) && fresh(queue.state) && queue.Valid() && queue.capacity == capacity
    ensures Calls(Empty(capacity), log) && After(Empty(capacity), log) == queue.state.Abs()
    ensures HoldsTurn(queue.state.Abs(), second)
    ensures Overlooked(Empty(capacity), log, second) && !Knows(Empty(capacity), log, second)
  {
    hide Leveled, Recencies, Timed, Consistent, ApplyAll, LegalAll, Leaves;
    hide Calls, Effect, HoldsTurn, Overlooked, Knows, After, Unexpired;
    queue := new Queue(capacity, overflow);
    ghost var start := Empty<K>(capacity);
    NoCalls(start);
    var first, third;
    first, log := JoinAtZero(queue, 2, Some(5), key, start, []);
    second, log := JoinAtZero(queue, 1, None, key, start, log);
    third, log := JoinAtZero(queue, 0, None, key, start, log);
    log := LookPast(queue, first, second, third, decision, start, log);
    ghost var before, past := queue.state.Abs(), log;
    ghost var late;
    var woken;
    woken, late := queue.Depart(5, first);
    StillOverlooked(start, past, first, second, woken, queue.state.Abs());
    log := past + [Step(Quit(first), woken, queue.state.Abs())];
    UntoldIffOverlooked(capacity, log, second);
  }

  lemma NoCalls<K(!new)>(q: State<K>)
    ensures Calls(q, []) && After(q, []) == q && Unexpired(map[], 0) == map[]
  {
  }

  /** The third waiter's look, at the first one's deadline. */
  method LookPast<K(==,!new)>(queue: Queue<K>, first: nat, second: nat, third: nat, decision: Decision,
                              ghost start: State<K>, ghost before: seq<Step<K>>) returns (ghost log: seq<Step<K>>)
    requires queue.Valid() && queue.state.evicted == {}
    requires Calls(start, before) && After(start, before) == queue.state.Abs()
    requires queue.state.waiters.Keys == {first, second, third} && first != second && second != third && first != third
    requires var ws := queue.state.waiters;
             && ws[first].priority > ws[second].priority > ws[third].priority
             && ws[first].deadline == Some(5) && ws[second].deadline.None? && ws[third].deadline.None?
    modifies queue.state
    ensures queue.Valid() && Calls(start, log) && After(start, log) == queue.state.Abs()
    ensures first !in queue.state.waiters && HoldsTurn(queue.state.Abs(), second) && Overlooked(start, log, second)
  {
    hide Leveled, Recencies, Timed, Consistent, ApplyAll, LegalAll, Leaves;
    hide Calls, HoldsTurn, Effect, Overlooked, After;
    ghost var q := queue.state.Abs();
    HighestHoldsTurn(q, first);
    var outcome, woken;
    ghost var moves, gone, late;
    outcome, woken, moves, gone, late := queue.Poll(5, third, None, decision);
    ghost var turn := ApplyAll(q, Leaves(gone));
    HighestHoldsTurn(turn, second);
    assert !outcome.Granted?;
    ghost var s := Step(Turn(third, 5, false), woken, queue.state.Abs());
    CallsMore(start, before, s);
    log := before + [s];
    DropsFirst(start, before, first, second, third, s);
  }

  lemma DropsFirst<K(!new)>(start: State<K>, before: seq<Step<K>>, first: nat, second: nat, third: nat, s: Step<K>)
    requires var q := After(start, before);
             && Effect(q, s.after, s.woken, s.call) && s.call == Turn(third, 5, false) && HoldsTurn(q, first)
             && q.waiters.Keys == {first, second, third} && first != second && second != third && first != third
             && q.waiters[first].deadline == Some(5) && q.waiters[second].deadline.None? && q.waiters[third].deadline.None?
             && q.waiters[second].priority > q.waiters[third].priority
    ensures first !in s.after.waiters && HoldsTurn(s.after, second) && Overlooked(start, before + [s], second)
  {
    var q := After(start, before);
    assert s.after.waiters.Keys == {second, third};
    HighestHoldsTurn(s.after, second);
    hide HoldsTurn;
    assert first in q.waiters && DropsHolder(q, s, second);
    assert (before + [s])[..|before|] == before;
  }

  lemma StillOverlooked<K(!new)>(start: State<K>, before: seq<Step<K>>, gone: nat, h: nat, woken: Option<nat>, t: State<K>)
    requires Calls(start, before) && HoldsTurn(After(start, before), h) && Overlooked(start, before, h)
    requires gone !in After(start, before).waiters && Effect(After(start, before), t, woken, Quit(gone))
    ensures var log := before + [Step(Quit(gone), woken, t)];
            Calls(start, log) && After(start, log) == t && HoldsTurn(t, h) && Overlooked(start, log, h)
  {
    hide HoldsTurn, DropsHolder, Calls;
    var s := Step(Quit(gone), woken, t);
    CallsMore(start, before, s);
    assert (before + [s])[..|before|] == before;
  }
}

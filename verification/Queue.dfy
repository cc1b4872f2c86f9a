/** The queue's own calls: joining it, trying to be served, and leaving. Each is a run of the moves whose
    fairness is proved elsewhere, by which the queue stays within its capacity and only the holder of the
    turn is ever served. */
module Queue {
  import opened Common
  import opened Scheduling
  import opened Levels
  import opened Bypass
  import opened Scheduler

  datatype Overflow = Reject | DropOldest | DropLowestPriority

  /** What the wrapped limiter answers the holder of the turn. */
  datatype Decision = Acquired | Retry | Impossible

  datatype Outcome = Granted | QueueFull | DeadlineExceeded | CostExceedsCapacity | KeepWaiting

  /** Whom a full queue turns out for a newcomer, if anyone. */
  predicate IsVictim(overflow: Overflow, live: map<nat, Waiter>, priority: nat, victim: Option<nat>) {
    match overflow
    case Reject => victim == None
    case DropOldest => victim.Some? && Least(live.Keys, victim.value)
    case DropLowestPriority =>
      match victim
      case Some(weakest) => IsWeakest(live, weakest) && priority > live[weakest].priority
      case None => forall t <- live :: live[t].priority >= priority
  }

  function Evictions<K>(victim: Option<nat>): seq<Move<K>> {
    if victim.Some? then [Leave(victim.value)] else []
  }

  lemma WeakestIsLeast(live: map<nat, Waiter>, weakest: nat, priority: nat)
    requires IsWeakest(live, weakest) && priority <= live[weakest].priority
    ensures forall t <- live :: live[t].priority >= priority
  {
  }

  lemma UnexpiredFewer(waiters: map<nat, Waiter>, now: nat)
    ensures |Unexpired(waiters, now)| <= |waiters|
  {
    SubsetSmaller(Unexpired(waiters, now).Keys, waiters.Keys);
  }

  lemma LegalThen<K>(q: State<K>, first: seq<Move<K>>, more: seq<Move<K>>, mid: State<K>, t: State<K>, capacity: nat)
    requires LegalAll(q, first, capacity) && mid == ApplyAll(q, first)
    requires LegalAll(mid, more, capacity) && t == ApplyAll(mid, more)
    ensures LegalAll(q, first + more, capacity) && t == ApplyAll(q, first + more)
  {
    LegalMore(q, first, more, capacity);
    ApplyMore(q, first, more);
  }

  /** After `now`'s expired waiters have left, possibly an eviction, an arrival, and more expired ones. */
  ghost predicate Joins<K(!new)>(q: State<K>, t: State<K>, moves: seq<Move<K>>, gone: seq<nat>, victim: Option<nat>,
                                 arrival: seq<Move<K>>, late: seq<nat>, capacity: nat) {
    && moves == Leaves(gone) + Evictions(victim) + arrival + Leaves(late)
    && LegalAll(q, moves, capacity) && t == ApplyAll(q, moves)
  }

  /** A newcomer with a ticket of its own has joined, and then the expired have left. */
  ghost predicate Entered(before: map<nat, Waiter>, after: map<nat, Waiter>, ticket: nat, priority: nat,
                          deadline: Option<nat>, now: nat) {
    ticket !in before && exists id :: after == Unexpired(before[ticket := Waiter(priority, deadline, id)], now)
  }

  function Turned(victim: Option<nat>): set<nat> {
    if victim.Some? then {victim.value} else {}
  }

  lemma NewcomerEnters<K>(q: State<K>, priority: nat, deadline: Option<nat>, key: K, now: nat, after: map<nat, Waiter>)
    requires Consistent(q) && after == Unexpired(Arrived(q, priority, deadline, key).waiters, now)
    ensures Entered(q.waiters, after, q.nextSeq, priority, deadline, now)
  {
    var joined := Arrived(q, priority, deadline, key).waiters;
    assert joined == q.waiters[q.nextSeq := Waiter(priority, deadline, joined[q.nextSeq].keyId)];
    hide Unexpired;
  }

  // --- Who is woken --------------------------------------------------------------------------------------

  /** A call on the queue: a request to join, a pass of a waiter's loop that reached the turn, or a waiter's
      departure. */
  datatype Call = Join(accepted: bool) | Turn(ticket: nat, now: nat, served: bool) | Quit(ticket: nat)

  /** `woken` is whoever holds the turn. */
  ghost predicate Names<K(!new)>(q: State<K>, woken: Option<nat>) {
    (woken.None? <==> q.waiters == map[]) && (woken.Some? ==> HoldsTurn(q, woken.value))
  }

  /** What a call makes of the turn, and whom it wakes. */
  ghost predicate Effect<K(!new)>(q: State<K>, t: State<K>, woken: Option<nat>, c: Call) {
    match c
    case Join(true) => Names(t, woken)
    case Join(false) => woken == None && t == q
    case Turn(_, now, served) =>
      if served then Names(t, woken)
      else woken == None && t.waiters == Unexpired(q.waiters, now) && forall h <- t.waiters | HoldsTurn(q, h) :: HoldsTurn(t, h)
    case Quit(ticket) => if ticket in q.waiters then Names(t, woken) else woken == None && t == q
  }

  lemma LeaveKeepsTurn<K>(q: State<K>, ticket: nat, h: nat)
    requires Consistent(q) && HoldsTurn(q, h) && h in Left(q, ticket).waiters
    ensures HoldsTurn(Left(q, ticket), h)
  {
    var t := Left(q, ticket);
    LeftConsistent(q, ticket);
    LeftWaiters(q, ticket);
    forall other | other in t.waiters && other != h ensures Precedes(t, h, other) {
      LeaveKeepsRecency(q, ticket, h);
      LeaveKeepsRecency(q, ticket, other);
      assert Precedes(q, h, other);
    }
  }

  lemma LeaveKeepsRecency<K>(q: State<K>, ticket: nat, other: nat)
    requires Consistent(q) && other in Left(q, ticket).waiters
    ensures other in q.waiters && Left(q, ticket).waiters[other] == q.waiters[other]
    ensures Recency(Left(q, ticket), q.waiters[other].keyId) == Recency(q, q.waiters[other].keyId)
  {
    LeftWaiters(q, ticket);
    if ticket in q.waiters {
      var u := Uncounted(q, ticket);
      UncountedKept(q, ticket);
      PrunedRecencies(u);
      UncountedRecencies(q, ticket);
      assert u.keyOf == q.keyOf;
      assert Left(q, ticket) == KeysPruned(u);
      assert other in u.waiters && u.waiters[other] == q.waiters[other];
      hide Consistent, KeysPruned, KeysMatch, WaitersKeyed, StampsKnown, Left, Uncounted;
    }
  }

  lemma {:induction false} LeavesKeepTurn<K>(q: State<K>, gone: seq<nat>, h: nat)
    requires Consistent(q) && HoldsTurn(q, h) && h in ApplyAll(q, Leaves(gone)).waiters
    ensures Consistent(ApplyAll(q, Leaves(gone))) && HoldsTurn(ApplyAll(q, Leaves(gone)), h)
  {
    if gone == [] {
      NobodyLeaves(q);
    } else {
      var n := |gone| - 1;
      assert gone == gone[..n] + [gone[n]];
      LeavesMore(q, gone[..n], gone[n]);
      LeavesConsistent(q, gone[..n]);
      LeftWaiters(ApplyAll(q, Leaves(gone[..n])), gone[n]);
      LeavesKeepTurn(q, gone[..n], h);
      LeftConsistent(ApplyAll(q, Leaves(gone[..n])), gone[n]);
      LeaveKeepsTurn(ApplyAll(q, Leaves(gone[..n])), gone[n], h);
    }
  }

  lemma {:induction false} LeavesConsistent<K>(q: State<K>, gone: seq<nat>)
    requires Consistent(q)
    ensures Consistent(ApplyAll(q, Leaves(gone)))
  {
    if gone == [] {
      NobodyLeaves(q);
    } else {
      var n := |gone| - 1;
      assert gone == gone[..n] + [gone[n]];
      LeavesMore(q, gone[..n], gone[n]);
      LeavesConsistent(q, gone[..n]);
      LeftConsistent(ApplyAll(q, Leaves(gone[..n])), gone[n]);
    }
  }

  /** A pass that is not served wakes nobody, and leaves the turn where it was unless its holder has expired. */
  lemma PassEffect<K(!new)>(q: State<K>, gone: seq<nat>, ticket: nat, now: nat)
    requires Consistent(q) && ApplyAll(q, Leaves(gone)).waiters == Unexpired(q.waiters, now)
    ensures Effect(q, ApplyAll(q, Leaves(gone)), None, Turn(ticket, now, false))
  {
    var t := ApplyAll(q, Leaves(gone));
    forall h | h in t.waiters && HoldsTurn(q, h) ensures HoldsTurn(t, h) {
      LeavesKeepTurn(q, gone, h);
    }
  }

  /** When everybody in a full queue is still in time, nobody has left. */
  lemma NobodyLeft<K>(q: State<K>, t: State<K>, gone: seq<nat>, capacity: nat)
    requires t == ApplyAll(q, Leaves(gone)) && |gone| + |t.waiters| == |q.waiters| <= capacity <= |t.waiters|
    ensures t == q
  {
    assert gone == [];
    NobodyLeaves(q);
  }

  class Queue<K(==,!new)> {
    const state: Scheduler<K>
    const capacity: nat
    const overflow: Overflow

    constructor (capacity: nat, overflow: Overflow)
      ensures Valid() && fresh(state) && this.overflow == overflow && this.capacity == Max(capacity, 1)
      ensures state.Abs() == Empty(this.capacity) && state.evicted == {}
    {
      this.capacity := Max(capacity, 1);
      state := new Scheduler(Max(capacity, 1));
      this.overflow := overflow;
    }

    ghost predicate Valid()
      reads this, state
    {
      state.Valid() && |state.waiters| <= capacity && capacity > 0
    }

    /** Joins the queue, applying the overflow policy when it is full, and wakes whoever then holds the turn
        (`woken`). `victim` was evicted to make room. */
    method Register(now: nat, priority: nat, deadline: Option<nat>, key: K)
      returns (ticket: Option<nat>, woken: Option<nat>, ghost moves: seq<Move<K>>,
               ghost gone: seq<nat>, ghost victim: Option<nat>, ghost late: seq<nat>)
      requires Valid()
      modifies state
      ensures Valid()
      ensures Joins(old(state.Abs()), state.Abs(), moves, gone, victim,
                    if ticket.Some? then [Arrive(priority, deadline, key)] else [], late, capacity)
      ensures var live := Unexpired(old(state.waiters), now);
              && (|live| < capacity ==> ticket.Some? && victim.None?)
              && (|live| >= capacity ==> IsVictim(overflow, live, priority, victim) && ticket.Some? == victim.Some?)
      ensures ticket.Some? ==>
                Entered(Unexpired(old(state.waiters), now) - Turned(victim), state.waiters, ticket.value, priority, deadline, now)
      ensures state.evicted == old(state.evicted) + Turned(victim)
      ensures Effect(old(state.Abs()), state.Abs(), woken, Join(ticket.Some?))
    {
      hide Leveled, Recencies, Timed, Consistent, Left, Apply, ApplyAll, LegalAll, HoldsTurn, IsVictim, Leaves, Entered, Unexpired;
      ghost var start := state.Abs();
      ticket, woken, late, victim := None, None, [], None;
      gone := Expire(now);
      moves := Leaves(gone);
      NoLeaves<K>(moves);
      if |state.waiters| >= capacity {
        ghost var pruned := state.Abs();
        var chosen := Choose(priority);
        victim := chosen;
        if chosen.None? {
          NobodyLeft(start, pruned, gone, capacity);
          return;
        }
        Evict(chosen.value);
        LegalThen(start, moves, Evictions(victim), pruned, state.Abs(), capacity);
        moves := moves + Evictions(victim);
      }
      ghost var room := state.Abs();
      assert state.waiters == Unexpired(start.waiters, now) - Turned(victim);
      var joined;
      joined, woken, late := Admit(now, priority, deadline, key);
      ticket := Some(joined);
      LegalThen(start, moves, [Arrive(priority, deadline, key)] + Leaves(late), room, state.Abs(), capacity);
      ghost var arrival := [Arrive(priority, deadline, key)];
      assert moves + (arrival + Leaves(late)) == moves + arrival + Leaves(late);
      moves := moves + arrival + Leaves(late);
    }

    method Expire(now: nat) returns (ghost gone: seq<nat>)
      requires Valid()
      modifies state
      ensures Valid() && state.evicted == old(state.evicted) && state.waiters == Unexpired(old(state.waiters), now)
      ensures LegalAll(old(state.Abs()), Leaves(gone), capacity) && state.Abs() == ApplyAll(old(state.Abs()), Leaves(gone))
      ensures |gone| + |state.waiters| == |old(state.waiters)|
    {
      hide Leveled, Recencies, Timed, Consistent, Apply, ApplyAll, LegalAll;
      LeavesLegal(state.Abs(), [], capacity);
      UnexpiredFewer(state.waiters, now);
      gone := state.PruneExpired(now);
      LeavesLegal(old(state.Abs()), gone, capacity);
    }

    /** Whom the policy turns out of a full queue. */
    method Choose(priority: nat) returns (victim: Option<nat>)
      requires Valid() && state.waiters != map[]
      ensures IsVictim(overflow, state.waiters, priority, victim) && (victim.Some? ==> victim.value in state.waiters)
    {
      match overflow
      case Reject =>
        victim := None;
      case DropOldest =>
        victim := state.Oldest();
      case DropLowestPriority =>
        var weakest := state.Weakest();
        victim := None;
        if priority > weakest.value.1 {
          victim := Some(weakest.value.0);
        } else {
          WeakestIsLeast(state.waiters, weakest.value.0, priority);
        }
    }

    method Evict(ticket: nat)
      requires Valid() && ticket in state.waiters
      modifies state
      ensures Valid() && |state.waiters| == |old(state.waiters)| - 1 && state.evicted == old(state.evicted) + {ticket}
      ensures state.waiters == old(state.waiters) - {ticket}
      ensures LegalAll(old(state.Abs()), [Leave(ticket)], capacity) && state.Abs() == ApplyAll(old(state.Abs()), [Leave(ticket)])
    {
      hide Leveled, Recencies, Timed, Consistent, Left, ApplyAll, LegalAll;
      OneMove(state.Abs(), Leave(ticket), capacity);
      OneFewer(state.waiters, ticket);
      LeftWaiters(state.Abs(), ticket);
      state.Evict(ticket);
    }

    /** Enqueues a newcomer for whom there is room, and finds who then holds the turn. */
    method Admit(now: nat, priority: nat, deadline: Option<nat>, key: K)
      returns (ticket: nat, woken: Option<nat>, ghost late: seq<nat>)
      requires Valid() && |state.waiters| < capacity
      modifies state
      ensures Valid() && state.evicted == old(state.evicted)
      ensures Entered(old(state.waiters), state.waiters, ticket, priority, deadline, now)
      ensures var moves := [Arrive(priority, deadline, key)] + Leaves(late);
              LegalAll(old(state.Abs()), moves, capacity) && state.Abs() == ApplyAll(old(state.Abs()), moves)
      ensures (woken.None? <==> state.waiters == map[]) && (woken.Some? ==> HoldsTurn(state.Abs(), woken.value))
    {
      hide Leveled, Recencies, Timed, Consistent, Arrived, ApplyAll, LegalAll, HoldsTurn, Leaves, Entered, Unexpired;
      ghost var start := state.Abs();
      ghost var arrival := [Arrive(priority, deadline, key)];
      OneMove(start, Arrive(priority, deadline, key), capacity);
      ArrivedFits(start, priority, deadline, key, capacity);
      ticket := state.Insert(priority, deadline, key);
      ghost var joined := state.Abs();
      woken, late := WakeWinner(now);
      NewcomerEnters(start, priority, deadline, key, now, state.waiters);
      LegalThen(start, arrival, Leaves(late), joined, state.Abs(), capacity);
    }

    /** Names the waiter to wake: the one holding the turn once the expired have left. */
    method WakeWinner(now: nat) returns (woken: Option<nat>, ghost gone: seq<nat>)
      requires Valid()
      modifies state
      ensures Valid() && state.evicted == old(state.evicted) && state.waiters == Unexpired(old(state.waiters), now)
      ensures LegalAll(old(state.Abs()), Leaves(gone), capacity) && state.Abs() == ApplyAll(old(state.Abs()), Leaves(gone))
      ensures (woken.None? <==> state.waiters == map[]) && (woken.Some? ==> HoldsTurn(state.Abs(), woken.value))
    {
      hide Leveled, Recencies, Timed, Consistent, ApplyAll, LegalAll, HoldsTurn;
      ghost var start := state.Abs();
      UnexpiredFewer(state.waiters, now);
      woken, gone := state.Winner(now);
      LeavesLegal(start, gone, capacity);
    }

    /** One pass of a waiter's loop: leaves when evicted or past its deadline; otherwise, if it holds the turn,
        asks the limiter, and on a grant is served. */
    method Poll(now: nat, ticket: nat, deadline: Option<nat>, decision: Decision)
      returns (outcome: Outcome, woken: Option<nat>, ghost moves: seq<Move<K>>, ghost gone: seq<nat>, ghost late: seq<nat>)
      requires Valid()
      modifies state
      ensures Valid() && state.evicted == old(state.evicted)
      ensures LegalAll(old(state.Abs()), moves, capacity) && state.Abs() == ApplyAll(old(state.Abs()), moves)
      ensures moves == Leaves(gone) + if outcome.Granted? then [Serve(ticket)] + Leaves(late) else []
      ensures ticket in old(state.evicted) ==> outcome == QueueFull
      ensures outcome.QueueFull? ==> ticket in old(state.evicted)
      ensures ticket !in old(state.evicted) ==>
                (outcome.DeadlineExceeded? <==> deadline.Some? && deadline.value <= now)
      ensures var turn := ApplyAll(old(state.Abs()), Leaves(gone));
              ticket !in old(state.evicted) && !outcome.DeadlineExceeded? ==>
                && turn.waiters == Unexpired(old(state.waiters), now)
                && (if HoldsTurn(turn, ticket) then
                      outcome == match decision case Acquired => Granted case Retry => KeepWaiting case Impossible => CostExceedsCapacity
                    else outcome == KeepWaiting)
      ensures if ticket in old(state.evicted) || outcome.DeadlineExceeded? then woken.None? && state.Abs() == old(state.Abs())
              else Effect(old(state.Abs()), state.Abs(), woken, Turn(ticket, now, outcome.Granted?))
    {
      hide Leveled, Recencies, Timed, Consistent, Apply, ApplyAll, LegalAll, HoldsTurn, Unexpired;
      ghost var start := state.Abs();
      woken, gone, late := None, [], [];
      moves := Leaves(gone);
      LeavesLegal(start, gone, capacity);
      NoLeaves<K>(moves);
      NobodyLeaves(start);
      if ticket in state.evicted {
        return QueueFull, woken, moves, gone, late;
      }
      if deadline.Some? && now >= deadline.value {
        return DeadlineExceeded, woken, moves, gone, late;
      }
      var holder;
      holder, gone := WakeWinner(now);
      moves := Leaves(gone);
      NoLeaves<K>(moves);
      ghost var turn := state.Abs();
      PassEffect(start, gone, ticket, now);
      OneHolder(turn, ticket, holder);
      outcome := KeepWaiting;
      if holder == Some(ticket) {
        match decision {
          case Acquired =>
            woken, late := Grant(now, ticket);
            LegalThen(start, moves, [Serve(ticket)] + Leaves(late), turn, state.Abs(), capacity);
            moves := moves + ([Serve(ticket)] + Leaves(late));
            outcome := Granted;
          case Retry =>
          case Impossible =>
            outcome := CostExceedsCapacity;
        }
      }
    }

    /** Serves the holder of the turn and passes the turn on. */
    method Grant(now: nat, ticket: nat) returns (woken: Option<nat>, ghost late: seq<nat>)
      requires Valid() && HoldsTurn(state.Abs(), ticket)
      modifies state
      ensures Valid() && state.evicted == old(state.evicted)
      ensures var moves := [Serve(ticket)] + Leaves(late);
              LegalAll(old(state.Abs()), moves, capacity) && state.Abs() == ApplyAll(old(state.Abs()), moves)
      ensures (woken.None? <==> state.waiters == map[]) && (woken.Some? ==> HoldsTurn(state.Abs(), woken.value))
    {
      hide Leveled, Recencies, Timed, Consistent, Served, ApplyAll, LegalAll, HoldsTurn, Leaves;
      ghost var start := state.Abs();
      OneMove(start, Serve(ticket), capacity);
      ServedFits(start, ticket, capacity);
      state.Serve(ticket);
      ghost var served := state.Abs();
      woken, late := WakeWinner(now);
      LegalThen(start, [Serve(ticket)], Leaves(late), served, state.Abs(), capacity);
    }

    /** A waiter's task leaves the queue, however it ends: removes it if it is still there, and passes the turn
        on. */
    method Depart(now: nat, ticket: nat) returns (woken: Option<nat>, ghost late: seq<nat>)
      requires Valid()
      modifies state
      ensures Valid() && state.evicted == old(state.evicted) && ticket !in state.waiters
      ensures var moves := [Leave(ticket)] + Leaves(late);
              LegalAll(old(state.Abs()), moves, capacity) && state.Abs() == ApplyAll(old(state.Abs()), moves)
      ensures Effect(old(state.Abs()), state.Abs(), woken, Quit(ticket))
    {
      hide Leveled, Recencies, Timed, Consistent, Left, ApplyAll, LegalAll, HoldsTurn, Leaves;
      ghost var start := state.Abs();
      ghost var leave := [Leave(ticket)];
      OneMove(start, leave[0], capacity);
      LeftWaiters(start, ticket);
      SubsetSmaller((state.waiters - {ticket}).Keys, state.waiters.Keys);
      var was := state.Remove(ticket);
      ghost var left := state.Abs();
      woken, late := None, [];
      LeavesLegal(left, late, capacity);
      GoneAlready(start, ticket);
      NoLeaves<K>(leave);
      NobodyLeaves(left);
      if was {
        woken, late := WakeWinner(now);
      }
      LegalThen(start, leave, Leaves(late), left, state.Abs(), capacity);
    }
  }

  lemma GoneAlready<K>(q: State<K>, ticket: nat)
    ensures ticket !in q.waiters ==> Left(q, ticket) == q
  {
  }

  lemma NoLeaves<K>(moves: seq<Move<K>>)
    ensures Leaves<K>([]) == [] && moves + [] == moves
  {
  }

  lemma ArrivedFits<K>(q: State<K>, priority: nat, deadline: Option<nat>, key: K, capacity: nat)
    requires Consistent(q) && |q.waiters| < capacity
    ensures |Arrived(q, priority, deadline, key).waiters| <= capacity
  {
    ArrivedBounded(q, priority, deadline, key);
  }

  lemma ServedFits<K>(q: State<K>, ticket: nat, capacity: nat)
    requires Consistent(q) && |q.waiters| <= capacity
    ensures |Served(q, ticket).waiters| <= capacity
  {
    SubsetSmaller(Served(q, ticket).waiters.Keys, q.waiters.Keys);
  }

  /** At most one waiter holds the turn. */
  lemma OneHolder<K>(q: State<K>, ticket: nat, holder: Option<nat>)
    requires holder.None? <==> q.waiters == map[]
    requires holder.Some? ==> HoldsTurn(q, holder.value)
    ensures HoldsTurn(q, ticket) <==> holder == Some(ticket)
  {
    if holder.Some? && ticket in q.waiters && ticket != holder.value {
      assert Precedes(q, holder.value, ticket);
    }
  }
}

/** Concurrency slots and their wake-ups: the bulkhead's `in_use` counter and the adaptive limiter's
    `in_flight` / `limit` pair, taken by compare-exchange loops and waited for by "try, register,
    try again, sleep".

    Every load, compare-exchange, registration, notification and cancellation is one step; any
    number of callers interleave. The event is modelled by what its users rely on: a notification
    marks one more listener that is not marked yet (and is lost when there is none), and a marked
    listener that is dropped passes its mark on. */
module Slots {
  import opened Common

  /** A caller's registration with the event. */
  datatype Ear = Deaf | Listening | Notified

  datatype Phase =
    | Load                  // about to load the counter
    | Loaded(seen: nat)     // about to compare the loaded value with the limit
    | Swap(seen: nat)       // about to compare-exchange `seen` for `seen` and the slots wanted
    | Register              // refused once, about to register a listener
    | Asleep                // refused again, awaiting the listener
    | Holding               // the slots are taken
    | TurnedAway            // a non-waiting try was refused
    | Left                  // cancelled, or every slot given back

  /** A caller and the slots it wants or holds; `patient` ones are inside the waiting loop, for one slot, the
      others use the non-waiting try. */
  datatype Caller = Caller(patient: bool, slots: nat, phase: Phase, ear: Ear)

  /** `owed` counts the notifications that releases and limit growths have earned but not yet
      delivered. */
  datatype State = State(limit: nat, floor: nat, ceiling: nat, inFlight: nat, owed: nat, callers: seq<Caller>)

  datatype Move =
    | Arrive(patient: bool, slots: nat)
    | Advance(who: nat)                  // the caller's next load, comparison, swap or registration
    | MissSwap(who: nat, reload: bool)   // a failed exchange: reload (adaptive) or keep the actual value
    | Wake(who: nat)                     // a marked sleeper resumes, consuming its listener
    | DropEar(who: nat, heir: nat)       // a holder drops its listener; a mark passes to `heir`
    | Cancel(who: nat, heir: nat)        // a sleeper's future is dropped
    | Release(who: nat, slots: nat)      // slots are given back
    | Grow(to: nat)
    | Shrink(to: nat)
    | Notify(heir: nat)                  // one owed notification is delivered

  function Put(s: State, i: nat, c: Caller): State
    requires i < |s.callers|
  {
    s.(callers := s.callers[i := c])
  }

  predicate NoListener(s: State) {
    forall i | 0 <= i < |s.callers| :: s.callers[i].ear != Listening
  }

  /** `heir` is a listener that can take a mark; with none left, the mark is lost. */
  predicate CanMark(s: State, heir: nat) {
    NoListener(s) || (heir < |s.callers| && s.callers[heir].ear == Listening)
  }

  function Mark(s: State, heir: nat): State
    requires CanMark(s, heir)
  {
    if NoListener(s) then s else Put(s, heir, s.callers[heir].(ear := Notified))
  }

  /** Drops the listener of caller `i`, which becomes `c`; a mark it carried passes on. */
  function DropListener(s: State, i: nat, c: Caller, heir: nat): State
    requires i < |s.callers|
    requires s.callers[i].ear == Notified ==> CanMark(Put(s, i, c), heir)
  {
    if s.callers[i].ear == Notified then Mark(Put(s, i, c), heir) else Put(s, i, c)
  }

  predicate Enabled(s: State, m: Move) {
    match m
    case Arrive(patient, slots) => patient ==> slots == 1
    case Advance(i) => i < |s.callers| && match s.callers[i].phase {
        case Load => true
        case Loaded(_) => true
        case Swap(v) => s.inFlight == v
        case Register => true
        case _ => false
      }
    case MissSwap(i, _) => i < |s.callers| && s.callers[i].phase.Swap?
    case Wake(i) => i < |s.callers| && s.callers[i].phase == Asleep && s.callers[i].ear == Notified
    case DropEar(i, heir) =>
      && i < |s.callers| && s.callers[i].phase == Holding && s.callers[i].ear != Deaf
      && (s.callers[i].ear == Notified ==> CanMark(Put(s, i, s.callers[i].(ear := Deaf)), heir))
    case Cancel(i, heir) =>
      && i < |s.callers| && s.callers[i].phase == Asleep
      && (s.callers[i].ear == Notified ==> CanMark(Put(s, i, s.callers[i].(phase := Left, ear := Deaf)), heir))
    case Release(i, n) => i < |s.callers| && s.callers[i].phase == Holding && s.callers[i].ear == Deaf && n <= s.callers[i].slots
    case Grow(to) => s.limit < to <= s.ceiling
    case Shrink(to) => s.floor <= to < s.limit
    case Notify(heir) => s.owed > 0 && CanMark(s, heir)
  }

  /** A refused attempt: give up, register and try again, or sleep on the listener. */
  function Refused(c: Caller): Caller {
    if !c.patient then c.(phase := TurnedAway)
    else if c.ear == Deaf then c.(phase := Register)
    else c.(phase := Asleep)
  }

  /** A holder that has given `n` slots back. */
  function Returned(c: Caller, n: nat): Caller
    requires n <= c.slots
  {
    if n == c.slots then c.(phase := Left) else c.(slots := c.slots - n)
  }

  function Apply(s: State, m: Move): State
    requires Enabled(s, m)
  {
    match m
    case Arrive(patient, slots) => s.(callers := s.callers + [Caller(patient, slots, Load, Deaf)])
    case Advance(i) => (
      var c := s.callers[i];
      match c.phase
      case Load => Put(s, i, c.(phase := Loaded(s.inFlight)))
      case Loaded(v) => Put(s, i, if v + c.slots > s.limit then Refused(c) else c.(phase := Swap(v)))
      case Swap(v) => Put(s, i, c.(phase := Holding)).(inFlight := v + c.slots)
      case _ => Put(s, i, c.(phase := Load, ear := Listening)))
    case MissSwap(i, reload) =>
      Put(s, i, s.callers[i].(phase := if reload then Load else Loaded(s.inFlight)))
    case Wake(i) => Put(s, i, s.callers[i].(phase := Load, ear := Deaf))
    case DropEar(i, heir) => DropListener(s, i, s.callers[i].(ear := Deaf), heir)
    case Cancel(i, heir) => DropListener(s, i, s.callers[i].(phase := Left, ear := Deaf), heir)
    case Release(i, n) =>
      Put(s, i, Returned(s.callers[i], n)).(inFlight := Monus(s.inFlight, n), owed := s.owed + n)
    case Grow(to) => s.(limit := to, owed := s.owed + (to - s.limit))
    case Shrink(to) => s.(limit := to)
    case Notify(heir) => Mark(s, heir).(owed := s.owed - 1)
  }

  ghost predicate Runs(s: State, moves: seq<Move>, t: State)
    decreases |moves|
  {
    if moves == [] then s == t
    else Enabled(s, moves[0]) && Runs(Apply(s, moves[0]), moves[1..], t)
  }

  /** The adaptive limiter moves its limit within `[floor, ceiling]`; a bulkhead has all three equal. */
  function Start(limit: nat, floor: nat, ceiling: nat): State {
    State(limit, floor, ceiling, 0, 0, [])
  }

  // --- Counting -----------------------------------------------------------------------------

  function SlotsHeld(): Caller -> int {
    (c: Caller) => if c.phase == Holding then c.slots else 0
  }

  /** The slots a caller can still be relied on to take or pass on, against a limit of `k`: one
      for a pending attempt that a load below `k` has not decided, and one for a mark. */
  function Weight(k: nat): Caller -> int {
    (c: Caller) =>
      (if c.ear == Notified then 1 else 0) +
      (if !c.patient then 0 else match c.phase {
         case Load => 1
         case Loaded(v) => if c.ear == Deaf || v < k then 1 else 0
         case Swap(_) => 1
         case Register => 1
         case _ => 0
       })
  }

  function Cover(s: State, k: nat): int {
    s.inFlight + s.owed + Sum(s.callers, Weight(k))
  }

  /** Up to which limit a listening caller may already have counted on being woken. */
  function Bound(s: State, c: Caller): nat {
    match c.phase
    case Asleep => s.limit
    case Loaded(v) => if v <= s.limit then v else s.limit
    case _ => 0
  }

  /** A listening caller is covered for every limit it may have counted on. */
  predicate Covered(s: State, c: Caller) {
    c.ear == Listening ==> forall k: nat | k <= Bound(s, c) :: Cover(s, k) >= k
  }

  predicate WellFormed(c: Caller, ceiling: nat) {
    && (if c.patient then c.slots == 1 else c.ear == Deaf)
    && (c.phase.Register? ==> c.patient && c.ear == Deaf)
    && (c.phase.Left? || c.phase.TurnedAway? ==> c.ear == Deaf)
    && (c.phase.Asleep? ==> c.ear != Deaf)
    && (c.phase.Swap? ==> c.phase.seen + c.slots <= ceiling)
  }

  predicate Inv(s: State) {
    && s.floor <= s.limit <= s.ceiling
    && s.inFlight <= s.ceiling
    && s.inFlight == Sum(s.callers, SlotsHeld())
    && (forall i | 0 <= i < |s.callers| :: WellFormed(s.callers[i], s.ceiling))
    && (forall i | 0 <= i < |s.callers| :: Covered(s, s.callers[i]))
  }

  // --- Every step keeps the invariant ----------------------------------------------------------

  /** How one caller's change moves both counts. */
  lemma PutCounts(s: State, i: nat, c: Caller)
    requires i < |s.callers|
    ensures Sum(Put(s, i, c).callers, SlotsHeld())
         == Sum(s.callers, SlotsHeld()) - SlotsHeld()(s.callers[i]) + SlotsHeld()(c)
    ensures forall k: nat ::
              Cover(Put(s, i, c), k) == Cover(s, k) - Weight(k)(s.callers[i]) + Weight(k)(c)
  {
    SumUpdate(s.callers, i, c, SlotsHeld());
    forall k: nat
      ensures Cover(Put(s, i, c), k) == Cover(s, k) - Weight(k)(s.callers[i]) + Weight(k)(c)
    {
      SumUpdate(s.callers, i, c, Weight(k));
    }
  }

  lemma CoverAtLeastHeld(s: State, k: nat)
    ensures Cover(s, k) >= s.inFlight + s.owed
  {
    SumNonNegative(s.callers, Weight(k));
  }

  /** A change of one caller keeps everyone covered when the cover drops only at limits the counter
      alone already reaches, and the changed caller itself is covered or no longer listening. */
  lemma PutKeeps(s: State, t: State, i: nat, c: Caller)
    requires Inv(s) && i < |s.callers| && t.callers == s.callers[i := c] && WellFormed(c, s.ceiling)
    requires t.limit == s.limit && t.floor == s.floor && t.ceiling == s.ceiling && t.inFlight <= t.ceiling
    requires t.inFlight == s.inFlight - SlotsHeld()(s.callers[i]) + SlotsHeld()(c)
    requires forall k: nat | k <= s.ceiling ::
               k <= t.inFlight || k > s.limit
               || t.inFlight + t.owed + Weight(k)(c) >= s.inFlight + s.owed + Weight(k)(s.callers[i])
    requires c.ear == Listening && s.callers[i].ear != Listening ==> Bound(t, c) <= t.inFlight
    requires c.ear == Listening ==> Bound(t, c) <= t.inFlight || Bound(t, c) <= Bound(s, s.callers[i])
    ensures Inv(t)
  {
    PutCounts(s, i, c);
    forall j | 0 <= j < |t.callers| ensures Covered(t, t.callers[j]) {
      if t.callers[j].ear == Listening {
        forall k: nat | k <= Bound(t, t.callers[j]) ensures Cover(t, k) >= k {
          CoverAtLeastHeld(t, k);
          if k > t.inFlight {
            assert Covered(s, s.callers[j]) && Cover(s, k) >= k;
            assert Cover(Put(s, i, c), k) == Cover(s, k) - Weight(k)(s.callers[i]) + Weight(k)(c);
          }
        }
      }
    }
  }

  lemma OwnStepKeeps(s: State, m: Move)
    requires Inv(s) && Enabled(s, m) && (m.Advance? || m.MissSwap? || m.Wake? || m.Release?)
    ensures Inv(Apply(s, m))
  {
    var t := Apply(s, m);
    assert WellFormed(s.callers[m.who], s.ceiling);
    if m.Release? { SumBounds(s.callers, SlotsHeld(), m.who); }
    PutKeeps(s, t, m.who, t.callers[m.who]);
  }

  /** Marking a listener adds one to the cover of everyone still unmarked. */
  lemma MarkCovers(s: State, heir: nat)
    requires CanMark(s, heir)
    ensures var t := Mark(s, heir);
            && Sum(t.callers, SlotsHeld()) == Sum(s.callers, SlotsHeld())
            && (NoListener(s) || forall k: nat :: Cover(t, k) >= Cover(s, k) + 1)
  {
    if !NoListener(s) {
      PutCounts(s, heir, s.callers[heir].(ear := Notified));
    }
  }

  /** Dropping a listener hands its mark on, so nobody left unmarked loses cover. */
  lemma DropKeeps(s: State, i: nat, c: Caller, heir: nat)
    requires Inv(s) && i < |s.callers| && s.callers[i].ear != Deaf
    requires c.ear == Deaf && c.slots == s.callers[i].slots && WellFormed(c, s.ceiling)
    requires (c.phase == Holding && s.callers[i].phase == Holding) || (c.phase == Left && s.callers[i].phase == Asleep)
    requires s.callers[i].ear == Notified ==> CanMark(Put(s, i, c), heir)
    ensures Inv(DropListener(s, i, c, heir))
  {
    var u := Put(s, i, c);
    var t := DropListener(s, i, c, heir);
    PutCounts(s, i, c);
    if s.callers[i].ear == Notified { MarkCovers(u, heir); }
    forall j | 0 <= j < |t.callers| ensures Covered(t, t.callers[j]) {
      if t.callers[j].ear == Listening {
        assert u.callers[j].ear == Listening && j != i && Covered(s, s.callers[j]);
        forall k: nat | k <= Bound(t, t.callers[j]) ensures Cover(t, k) >= k {
          assert Cover(s, k) >= k && Cover(t, k) >= Cover(s, k);
        }
      }
    }
  }

  lemma NotifyKeeps(s: State, heir: nat)
    requires Inv(s) && Enabled(s, Notify(heir))
    ensures Inv(Apply(s, Notify(heir)))
  {
    var t := Apply(s, Notify(heir));
    MarkCovers(s, heir);
    forall j | 0 <= j < |t.callers| ensures Covered(t, t.callers[j]) {
      if t.callers[j].ear == Listening {
        assert s.callers[j].ear == Listening && Covered(s, s.callers[j]);
        forall k: nat | k <= Bound(t, t.callers[j]) ensures Cover(t, k) >= k {
          assert Cover(s, k) >= k && Cover(t, k) == Cover(Mark(s, heir), k) - 1;
        }
      }
    }
  }

  lemma LimitKeeps(s: State, m: Move)
    requires Inv(s) && Enabled(s, m) && (m.Grow? || m.Shrink?)
    ensures Inv(Apply(s, m))
  {
    var t := Apply(s, m);
    forall j | 0 <= j < |t.callers| ensures Covered(t, t.callers[j]) {
      if t.callers[j].ear == Listening {
        var b := Bound(s, s.callers[j]);
        assert Covered(s, s.callers[j]);
        forall k: nat | k <= Bound(t, t.callers[j]) ensures Cover(t, k) >= k {
          assert Cover(t, k) == Cover(s, k) + t.owed - s.owed;
          if k <= b {
            assert Cover(s, k) >= k;
          } else {
            CoverMonotone(s, b, k);
            assert Cover(s, b) >= b;
          }
        }
      }
    }
  }

  /** Counting against a higher limit never drops a pending attempt. */
  lemma CoverMonotone(s: State, low: nat, high: nat)
    requires low <= high
    ensures Cover(s, low) <= Cover(s, high)
  {
    WeightMonotone(s.callers, low, high);
  }

  lemma {:induction false} WeightMonotone(cs: seq<Caller>, low: nat, high: nat)
    requires low <= high
    ensures Sum(cs, Weight(low)) <= Sum(cs, Weight(high))
  {
    if cs != [] {
      WeightMonotone(cs[..|cs| - 1], low, high);
    }
  }

  /** A newcomer takes no cover away. */
  lemma ArriveCovers(s: State, c: Caller, k: nat)
    ensures Cover(s.(callers := s.callers + [c]), k) >= Cover(s, k)
  {
    SumConcat(s.callers, [c], Weight(k));
    SumNonNegative([c], Weight(k));
  }

  lemma ArriveHolds(callers: seq<Caller>, c: Caller)
    requires c.phase == Load
    ensures Sum(callers + [c], SlotsHeld()) == Sum(callers, SlotsHeld())
  {
    SumConcat(callers, [c], SlotsHeld());
    assert Sum([c], SlotsHeld()) == 0;
  }

  lemma ArriveKeeps(s: State, patient: bool, slots: nat)
    requires Inv(s) && Enabled(s, Arrive(patient, slots))
    ensures Inv(Apply(s, Arrive(patient, slots)))
  {
    hide Cover, Sum, SlotsHeld, Weight;
    var c := Caller(patient, slots, Load, Deaf);
    var t := Apply(s, Arrive(patient, slots));
    ArriveHolds(s.callers, c);
    forall j | 0 <= j < |t.callers| ensures Covered(t, t.callers[j]) {
      if j < |s.callers| && t.callers[j].ear == Listening {
        assert t.callers[j] == s.callers[j] && Covered(s, s.callers[j]);
        forall k: nat | k <= Bound(t, t.callers[j]) ensures Cover(t, k) >= k {
          ArriveCovers(s, c, k);
          assert Cover(s, k) >= k;
        }
      }
    }
  }

  lemma StepKeeps(s: State, m: Move)
    requires Inv(s) && Enabled(s, m)
    ensures Inv(Apply(s, m))
  {
    match m
    case Arrive(patient, slots) => ArriveKeeps(s, patient, slots);
    case DropEar(i, heir) => DropKeeps(s, i, s.callers[i].(ear := Deaf), heir);
    case Cancel(i, heir) => DropKeeps(s, i, s.callers[i].(phase := Left, ear := Deaf), heir);
    case Grow(_) => LimitKeeps(s, m);
    case Shrink(_) => LimitKeeps(s, m);
    case Notify(heir) => NotifyKeeps(s, heir);
    case _ => OwnStepKeeps(s, m);
  }

  lemma {:induction false} RunKeeps(s: State, moves: seq<Move>, t: State)
    requires Inv(s) && Runs(s, moves, t)
    ensures Inv(t)
    decreases |moves|
  {
    if moves != [] {
      StepKeeps(s, moves[0]);
      RunKeeps(Apply(s, moves[0]), moves[1..], t);
    }
  }

  // --- Main results ------------------------------------------------------------------------------

  /** The counter is exactly the slots held, however many at a time they were taken and given back, and never passes the ceiling, while
      the limit stays between its bounds, in every interleaving. */
  lemma CounterIsHeldSlots(limit: nat, floor: nat, ceiling: nat, moves: seq<Move>, t: State)
    requires floor <= limit <= ceiling && Runs(Start(limit, floor, ceiling), moves, t)
    ensures t.inFlight == Sum(t.callers, SlotsHeld()) <= ceiling
    ensures floor <= t.limit <= ceiling
  {
    RunKeeps(Start(limit, floor, ceiling), moves, t);
    BoundsFixed(Start(limit, floor, ceiling), moves, t);
  }

  lemma {:induction false} BoundsFixed(s: State, moves: seq<Move>, t: State)
    requires Runs(s, moves, t)
    ensures t.ceiling == s.ceiling && t.floor == s.floor
    decreases |moves|
  {
    if moves != [] {
      BoundsFixed(Apply(s, moves[0]), moves[1..], t);
    }
  }

  /** No lost wake-up: while some caller sleeps unmarked, the slots held, the marks on their way,
      the attempts under way and the notifications still owed cover the whole limit. */
  lemma NoLostWakeUp(limit: nat, floor: nat, ceiling: nat, moves: seq<Move>, t: State, i: nat)
    requires floor <= limit <= ceiling && Runs(Start(limit, floor, ceiling), moves, t)
    requires i < |t.callers| && t.callers[i].phase == Asleep && t.callers[i].ear == Listening
    ensures Cover(t, t.limit) >= t.limit
  {
    RunKeeps(Start(limit, floor, ceiling), moves, t);
    assert Covered(t, t.callers[i]);
  }

  /** Nothing is under way: every caller sleeps unmarked, holds a slot, or has left, and every
      earned notification has been delivered. */
  predicate Quiet(s: State) {
    && s.owed == 0
    && forall i | 0 <= i < |s.callers| ::
         && s.callers[i].phase in {Asleep, Holding, TurnedAway, Left}
         && s.callers[i].ear != Notified
  }

  /** So nobody is left asleep beside a free slot: once things settle, a sleeper means every slot
      of the current limit is held. */
  lemma SleepersMeanFull(limit: nat, floor: nat, ceiling: nat, moves: seq<Move>, t: State, i: nat)
    requires floor <= limit <= ceiling && Runs(Start(limit, floor, ceiling), moves, t)
    requires Quiet(t) && i < |t.callers| && t.callers[i].phase == Asleep
    ensures t.inFlight >= t.limit
  {
    RunKeeps(Start(limit, floor, ceiling), moves, t);
    assert WellFormed(t.callers[i], t.ceiling);
    NoLostWakeUp(limit, floor, ceiling, moves, t, i);
    SumZero(t.callers, Weight(t.limit));
  }

  // --- Tries succeed when there is room, and are refused only when there is none ------------------------

  lemma {:induction false} Join(s: State, first: seq<Move>, u: State, second: seq<Move>, t: State)
    requires Runs(s, first, u) && Runs(u, second, t)
    ensures Runs(s, first + second, t)
    decreases |first|
  {
    hide Apply, Enabled;
    if first == [] {
      assert first + second == second;
    } else {
      Join(Apply(s, first[0]), first[1..], u, second, t);
      assert (first + second)[1..] == first[1..] + second;
    }
  }

  lemma OneStep(s: State, m: Move)
    requires Enabled(s, m)
    ensures Runs(s, [m], Apply(s, m))
  {
    hide Apply, Enabled;
    assert [m][1..] == [];
  }

  /** Nothing but its own load, comparison and exchange stands between a caller and the slots it wants, as long
      as the limit leaves room for them: waiting or not, from every state. */
  lemma RoomIsTaken(s: State, i: nat) returns (t: State)
    requires i < |s.callers| && s.callers[i].phase == Load && s.inFlight + s.callers[i].slots <= s.limit
    ensures Runs(s, [Advance(i)] + ([Advance(i)] + [Advance(i)]), t)
    ensures t == Put(s, i, s.callers[i].(phase := Holding)).(inFlight := s.inFlight + s.callers[i].slots)
  {
    var u := Apply(s, Advance(i));
    var v := Apply(u, Advance(i));
    t := Apply(v, Advance(i));
    assert v.callers == s.callers[i := s.callers[i].(phase := Swap(s.inFlight))];
    hide Apply, Runs;
    OneStep(s, Advance(i));
    OneStep(u, Advance(i));
    OneStep(v, Advance(i));
    Join(u, [Advance(i)], v, [Advance(i)], t);
    Join(s, [Advance(i)], u, [Advance(i)] + [Advance(i)], t);
  }

  /** And a waiting caller that finds no room, undisturbed, tries once more with a listener registered and then
      sleeps on it. */
  lemma FullPutsToSleep(s: State, i: nat) returns (t: State)
    requires i < |s.callers| && s.callers[i].patient && s.callers[i].phase == Load && s.callers[i].ear == Deaf
    requires s.inFlight + s.callers[i].slots > s.limit
    ensures Runs(s, ([Advance(i)] + [Advance(i)]) + ([Advance(i)] + ([Advance(i)] + [Advance(i)])), t)
    ensures t == Put(s, i, s.callers[i].(phase := Asleep, ear := Listening))
  {
    var u := Refuse(s, i);
    var v := Apply(u, Advance(i));
    t := Refuse(v, i);
    assert t.callers == s.callers[i := t.callers[i]];
    hide Apply, Runs;
    OneStep(u, Advance(i));
    Join(u, [Advance(i)], v, [Advance(i)] + [Advance(i)], t);
    Join(s, [Advance(i)] + [Advance(i)], u, [Advance(i)] + ([Advance(i)] + [Advance(i)]), t);
  }

  lemma Refuse(s: State, i: nat) returns (t: State)
    requires i < |s.callers| && s.callers[i].phase == Load && s.inFlight + s.callers[i].slots > s.limit
    ensures Runs(s, [Advance(i)] + [Advance(i)], t) && t == Put(s, i, Refused(s.callers[i]))
  {
    var u := Apply(s, Advance(i));
    t := Apply(u, Advance(i));
    assert t.callers == s.callers[i := Refused(s.callers[i])];
    hide Apply, Runs;
    OneStep(s, Advance(i));
    OneStep(u, Advance(i));
    Join(s, [Advance(i)], u, [Advance(i)], t);
  }

  /** The move is caller `i`'s load of the counter. */
  predicate Loads(s: State, m: Move, i: nat) {
    i < |s.callers| && ((m == Advance(i) && s.callers[i].phase == Load) || m == MissSwap(i, false))
  }

  /** The move is caller `i`'s comparison, and with the count it loaded there is no room for it. */
  predicate FindsFull(s: State, m: Move, i: nat) {
    m == Advance(i) && i < |s.callers| && s.callers[i].phase.Loaded? && s.callers[i].phase.seen + s.callers[i].slots > s.limit
  }

  /** Somewhere in the run, caller `i` compares the count `seen` and finds no room. */
  ghost predicate ComparedFull(s: State, moves: seq<Move>, i: nat, seen: nat)
    decreases |moves|
  {
    && moves != [] && Enabled(s, moves[0])
    && ((FindsFull(s, moves[0], i) && s.callers[i].phase.seen == seen) || ComparedFull(Apply(s, moves[0]), moves[1..], i, seen))
  }

  /** Somewhere in the run, caller `i` loads the counter as it then is, and later finds that count to leave no
      room. */
  ghost predicate SawFull(s: State, moves: seq<Move>, i: nat)
    decreases |moves|
  {
    && moves != [] && Enabled(s, moves[0])
    && ((Loads(s, moves[0], i) && ComparedFull(Apply(s, moves[0]), moves[1..], i, s.inFlight))
        || SawFull(Apply(s, moves[0]), moves[1..], i))
  }

  /** The count a caller has loaded and not yet exchanged. */
  predicate Carries(s: State, i: nat, seen: nat) {
    i < |s.callers| && (s.callers[i].phase == Loaded(seen) || s.callers[i].phase == Swap(seen))
  }

  predicate IsTurnedAway(s: State, i: nat) {
    i < |s.callers| && s.callers[i].phase == TurnedAway
  }

  /** How a caller comes to carry a count, and to be turned away. */
  lemma CountStep(s: State, m: Move, i: nat, seen: nat)
    requires Enabled(s, m)
    ensures Carries(Apply(s, m), i, seen) ==> Carries(s, i, seen) || (Loads(s, m, i) && seen == s.inFlight)
    ensures IsTurnedAway(Apply(s, m), i) ==>
              IsTurnedAway(s, i) || (FindsFull(s, m, i) && Carries(s, i, s.callers[i].phase.seen))
  {
  }

  lemma {:induction false} TurnedAwayWhy(s: State, moves: seq<Move>, t: State, i: nat)
    requires Runs(s, moves, t) && IsTurnedAway(t, i) && !IsTurnedAway(s, i)
    ensures SawFull(s, moves, i) || exists seen :: Carries(s, i, seen) && ComparedFull(s, moves, i, seen)
    decreases |moves|
  {
    var u := Apply(s, moves[0]);
    if IsTurnedAway(u, i) {
      CountStep(s, moves[0], i, 0);
      assert ComparedFull(s, moves, i, s.callers[i].phase.seen);
    } else {
      TurnedAwayWhy(u, moves[1..], t, i);
      hide Apply, Enabled, Runs;
      if !SawFull(u, moves[1..], i) {
        var seen :| Carries(u, i, seen) && ComparedFull(u, moves[1..], i, seen);
        CountStep(s, moves[0], i, seen);
      }
    }
  }

  /** Over every run, a try that was refused had loaded the counter as it was at some point of the run, and found
      later in the run that this left no room under the limit. */
  lemma RefusedOnlyIfFull(limit: nat, floor: nat, ceiling: nat, moves: seq<Move>, t: State, i: nat)
    requires Runs(Start(limit, floor, ceiling), moves, t) && i < |t.callers| && t.callers[i].phase == TurnedAway
    ensures SawFull(Start(limit, floor, ceiling), moves, i)
  {
    TurnedAwayWhy(Start(limit, floor, ceiling), moves, t, i);
  }
}

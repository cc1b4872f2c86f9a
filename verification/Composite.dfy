/** Requests that must clear several constituents at once: the all-or-nothing commit, the waiting
    acquire that reserves its bottleneck and takes the rest when it matures, the rollbacks and
    switches, and the engine that drives it and may be cancelled at any await.

    Every call on a constituent is one atomic step. What a constituent answers is arbitrary, since
    other callers interleave; a peek takes nothing, so a round of peeks is folded into the choice it
    leads to. Any number of callers run, each on its own list of constituents and costs. */
module Composite {
  import opened Common

  /** A constituent and the units asked of it. The same constituent may appear twice. */
  datatype Item = Item(limiter: nat, cost: nat)

  datatype Held = Nothing | One(index: nat) | All

  datatype Answer = SayGranted | SayHolding | SayRetry | SayNever

  datatype Result = Ok | TimedOut | Never | Refused | Dropped

  /** Where a rollback or a release leads. */
  datatype After = Say(answer: Answer) | Reconsider | Release | Fail(result: Result)

  datatype Pc =
    | Enter                                                    // a step of the waiting acquire begins
    | Choose                                                   // holding nothing: look for the bottleneck
    | Commit(next: nat)                                        // taking units, one constituent at a time
    | Queue(next: nat)                                         // reserving, one constituent at a time
    | Undo(next: nat, upto: nat, after: After)                  // giving back those before `upto`
    | GiveBack(next: nat, after: After)                         // giving back what the progress holds
    | Answered(answer: Answer)                                 // the step is over
    | Sleep                                                    // the engine awaits
    | Mature                                                   // granted: the engine awaits the units
    | Finished(result: Result)

  /** `held` and `armed` are the progress and the engine's guard; callers that do not wait have no
      engine. */
  datatype Caller = Caller(items: seq<Item>, waiting: bool, held: Held, armed: bool, pc: Pc)

  /** `taken[l]`: units taken from constituent `l` minus units refunded to it. */
  datatype State = State(taken: seq<int>, callers: seq<Caller>)

  datatype Choice =
    | Wait                     // the bottleneck has not matured; or sleep on it
    | Race                     // the second round of peeks lost a race
    | Start                    // commit: every peek granted
    | Reserve                  // the others need only a little longer: reserve them too
    | Switch                   // another constituent needs longer: give the matured units back
    | Impossible               // some constituent can never grant
    | Bottleneck(index: nat, reserved: bool)
    | Call(granted: bool, never: bool)   // one acquire or reserve, and its answer
    | Go                       // the next refund, or bookkeeping
    | GiveUp                   // the deadline does not allow it
    | Drop                     // the future is dropped

  datatype Move = Arrive(items: seq<Item>, waiting: bool, queueing: bool) | Act(who: nat, choice: Choice)

  /** The item the progress already holds takes no part in a commit of the rest. */
  predicate Skips(c: Caller, i: nat) {
    c.held == One(i)
  }

  /** A firing guard: gives back what is held if armed. */
  function Fire(c: Caller, r: Result): Caller {
    if c.armed then c.(armed := false, pc := GiveBack(0, Fail(r))) else c.(pc := Finished(r))
  }

  function Follow(c: Caller, after: After): Caller {
    match after
    case Say(a) => c.(pc := Answered(a))
    case Reconsider => c.(pc := Choose)
    case Release => c.(pc := GiveBack(0, Reconsider))
    case Fail(r) => c.(pc := Finished(r))
  }

  /** Every constituent is taken. */
  function Complete(c: Caller): Caller {
    c.(held := All, pc := if c.waiting then Answered(SayGranted) else Finished(Ok))
  }

  /** What a refused commit leads to once it is rolled back. */
  function Refusal(c: Caller, never: bool): After {
    if !c.waiting then Fail(Refused)
    else if c.held.One? then Say(SayHolding)
    else if never then Say(SayNever) else Say(SayRetry)
  }

  predicate Enabled(c: Caller, ch: Choice) {
    match c.pc
    case Enter => if c.held.One? then ch.Wait? || ch.Race? || ch.Start? || ch.Reserve? || ch.Switch? || ch.Impossible? else ch.Go?
    case Choose =>
      || ch.Impossible? || ch.Race? || ch.Start? || ch.GiveUp?
      || (ch.Bottleneck? && ch.index < |c.items|)
    case Commit(next) => if next < |c.items| && !Skips(c, next) then ch.Call? else ch.Go?
    case Queue(next) => if next < |c.items| && !Skips(c, next) then ch.Call? else ch.Go?
    case Undo(_, _, _) => ch.Go?
    case GiveBack(_, _) => ch.Go?
    case Answered(a) => if a == SayHolding || a == SayRetry then ch.Wait? || ch.GiveUp? else ch.Go?
    case Sleep => ch.Go? || ch.GiveUp? || ch.Drop?
    case Mature => ch.Go? || ch.GiveUp? || ch.Drop?
    case Finished(_) => false
  }

  function Next(c: Caller, ch: Choice): Caller
    requires Enabled(c, ch)
  {
    match c.pc
    case Enter => (
      match ch
      case Go => c.(pc := Choose)
      case Start => c.(pc := Commit(0))
      case Reserve => c.(pc := Queue(0))
      case Switch => c.(pc := GiveBack(0, Reconsider))
      case Impossible => c.(pc := GiveBack(0, Say(SayNever)))
      case _ => c.(pc := Answered(SayHolding)))
    case Choose => (
      match ch
      case Impossible => c.(pc := Answered(SayNever))
      case Start => c.(pc := Commit(0))
      case Bottleneck(b, true) => c.(held := One(b), pc := Answered(SayHolding))
      case _ => c.(pc := Answered(SayRetry)))
    case Commit(next) => (
      match ch
      case Call(granted, never) => c.(pc := if granted then Commit(next + 1) else Undo(0, next, Refusal(c, never)))
      case _ => if next < |c.items| then c.(pc := Commit(next + 1)) else Complete(c))
    case Queue(next) => (
      match ch
      case Call(granted, _) =>
        c.(pc := if granted then Queue(next + 1) else Undo(0, next, if c.waiting then Release else Fail(Refused)))
      case _ => if next < |c.items| then c.(pc := Queue(next + 1)) else Complete(c))
    case Undo(next, upto, after) => if next < upto then c.(pc := Undo(next + 1, upto, after)) else Follow(c, after)
    case GiveBack(next, after) =>
      if c.held == All && next < |c.items| then c.(pc := GiveBack(next + 1, after))
      else Follow(c.(held := Nothing), after)
    case Answered(a) => (
      match a
      case SayGranted => c.(armed := true, pc := Mature)
      case SayHolding => if ch.Wait? then c.(armed := true, pc := Sleep) else Fire(c.(armed := true), TimedOut)
      case SayRetry => c.(armed := false, pc := if ch.Wait? then Sleep else Finished(TimedOut))
      case SayNever => c.(armed := false, pc := Finished(Never)))
    case Sleep => if ch.Go? then c.(pc := Enter) else Fire(c, if ch.GiveUp? then TimedOut else Dropped)
    case Mature =>
      if ch.Go? then c.(armed := false, pc := Finished(Ok)) else Fire(c, if ch.GiveUp? then TimedOut else Dropped)
    case Finished(_) => c
  }

  /** The constituent call a step makes, as (item, units taken), or nothing. */
  function CallOf(c: Caller, ch: Choice): Option<(nat, int)>
    requires Enabled(c, ch)
  {
    match c.pc
    case Choose => if ch.Bottleneck? && ch.reserved then Some((ch.index, c.items[ch.index].cost)) else None
    case Commit(next) => if ch.Call? && ch.granted then Some((next, c.items[next].cost)) else None
    case Queue(next) => if ch.Call? && ch.granted then Some((next, c.items[next].cost)) else None
    case Undo(next, upto, _) =>
      if next < upto && next < |c.items| && !Skips(c, next) then Some((next, -(c.items[next].cost as int))) else None
    case GiveBack(next, _) => (
      match c.held
      case Nothing => None
      case One(b) => if b < |c.items| then Some((b, -(c.items[b].cost as int))) else None
      case All => if next < |c.items| then Some((next, -(c.items[next].cost as int))) else None)
    case _ => None
  }

  predicate WithinConstituents(items: seq<Item>, n: nat) {
    forall i | 0 <= i < |items| :: items[i].limiter < n
  }

  predicate CanMove(s: State, m: Move) {
    match m
    case Arrive(items, _, _) => WithinConstituents(items, |s.taken|)
    case Act(w, ch) =>
      && w < |s.callers| && Enabled(s.callers[w], ch)
      && WithinConstituents(s.callers[w].items, |s.taken|)
  }

  function Apply(s: State, m: Move): State
    requires CanMove(s, m)
  {
    match m
    case Arrive(items, waiting, queueing) =>
      // Waiting callers start a step; the others commit, or reserve on every constituent, at once.
      s.(callers := s.callers + [Caller(items, waiting, Nothing, false,
                                        if waiting then Enter else if queueing then Queue(0) else Commit(0))])
    case Act(w, ch) =>
      var c := s.callers[w];
      var t := s.(callers := s.callers[w := Next(c, ch)]);
      match CallOf(c, ch)
      case None => t
      case Some((i, units)) =>
        var l := c.items[i].limiter;
        t.(taken := s.taken[l := s.taken[l] + units])
  }

  ghost predicate Runs(s: State, moves: seq<Move>, t: State)
    decreases |moves|
  {
    if moves == [] then s == t
    else CanMove(s, moves[0]) && Runs(Apply(s, moves[0]), moves[1..], t)
  }

  function Begin(constituents: nat): State {
    State(seq(constituents, _ => 0), [])
  }

  // --- What a caller holds ---------------------------------------------------------------------------

  /** Whether item `i`'s units are the caller's, as its progress and the call under way say. */
  predicate Paid(c: Caller, i: nat) {
    match c.pc
    case Commit(next) => Skips(c, i) || i < next
    case Queue(next) => Skips(c, i) || i < next
    case Undo(next, upto, _) => Skips(c, i) || next <= i < upto
    case GiveBack(next, _) => Skips(c, i) || (c.held == All && next <= i)
    case _ => Skips(c, i) || c.held == All
  }

  /** Units of constituent `l` the first `n` items account for. */
  function Holds(c: Caller, l: nat, n: nat): int
    requires n <= |c.items|
  {
    if n == 0 then 0
    else Holds(c, l, n - 1) + if Paid(c, n - 1) && c.items[n - 1].limiter == l then c.items[n - 1].cost else 0
  }

  function HoldsOf(l: nat): Caller -> int {
    (c: Caller) => Holds(c, l, |c.items|)
  }

  /** One full charge of constituent `l`. */
  function Charge(items: seq<Item>, l: nat): nat {
    if items == [] then 0
    else Charge(items[..|items| - 1], l) + if items[|items| - 1].limiter == l then items[|items| - 1].cost else 0
  }

  predicate Consistent(c: Caller) {
    && (c.held.One? ==> c.held.index < |c.items|)
    && (c.held.One? ==> c.waiting)
    && match c.pc
       case Enter => c.waiting && c.held != All
       case Choose => c.waiting && c.held == Nothing
       case Commit(next) => next <= |c.items| && c.held != All
       case Queue(next) => next <= |c.items| && c.held != All && (c.held == Nothing ==> !c.waiting)
       case Undo(next, upto, after) =>
         && next <= upto <= |c.items| && c.held != All
         && (match after
             case Say(a) => c.waiting && (a == SayHolding <==> c.held.One?) && a != SayGranted
             case Release => c.held.One?
             case Fail(r) => c.held == Nothing && r != Ok
             case Reconsider => false)
       case GiveBack(next, after) =>
         && next <= |c.items| && (c.held == All || next == 0)
         && (match after
             case Say(a) => c.waiting && a == SayNever
             case Fail(r) => r != Ok
             case Reconsider => c.waiting
             case Release => false)
       case Answered(a) =>
         && c.waiting
         && (match a case SayGranted => c.held == All case SayHolding => c.held.One? case _ => c.held == Nothing)
       case Sleep => c.waiting && c.held != All && c.armed == c.held.One?
       case Mature => c.waiting && c.held == All && c.armed
       case Finished(r) => c.held == if r == Ok then All else Nothing
  }

  lemma StepConsistent(c: Caller, ch: Choice)
    requires Consistent(c) && Enabled(c, ch)
    requires c.pc.Enter? || c.pc.Choose? || c.pc.Commit? || c.pc.Queue?
    ensures Consistent(Next(c, ch))
  {
    match c.pc
    case Enter =>
    case Choose =>
    case Commit(next) =>
    case Queue(next) =>
  }

  lemma EngineConsistent(c: Caller, ch: Choice)
    requires Consistent(c) && Enabled(c, ch)
    requires !(c.pc.Enter? || c.pc.Choose? || c.pc.Commit? || c.pc.Queue?)
    ensures Consistent(Next(c, ch))
  {
    match c.pc
    case Undo(next, upto, after) =>
    case GiveBack(next, after) =>
    case Answered(a) =>
    case Sleep =>
    case Mature =>
  }

  /** A step keeps the caller consistent. */
  lemma NextConsistent(c: Caller, ch: Choice)
    requires Consistent(c) && Enabled(c, ch)
    ensures Consistent(Next(c, ch)) && Next(c, ch).items == c.items
  {
    if c.pc.Enter? || c.pc.Choose? || c.pc.Commit? || c.pc.Queue? {
      StepConsistent(c, ch);
    } else {
      EngineConsistent(c, ch);
    }
  }

  /** Going from `c` to `d` with this call changes the ownership of the item called on, and of no other:
      a grant makes its units the caller's, a refund is of units that were. */
  ghost predicate PaysFor(c: Caller, d: Caller, call: Option<(nat, int)>) {
    match call
    case None => forall i: nat | i < |c.items| :: Paid(d, i) == Paid(c, i)
    case Some((k, units)) =>
      && k < |c.items|
      && (forall i: nat | i < |c.items| && i != k :: Paid(d, i) == Paid(c, i))
      && Paid(c, k) != Paid(d, k)
      && units == if Paid(c, k) then -(c.items[k].cost as int) else c.items[k].cost
  }

  lemma GrantPays(c: Caller, ch: Choice)
    requires Consistent(c) && Enabled(c, ch)
    requires c.pc.Commit? || c.pc.Queue?
    ensures PaysFor(c, Next(c, ch), CallOf(c, ch))
  {
    match c.pc
    case Commit(next) =>
    case Queue(next) =>
  }

  lemma ChoicePays(c: Caller, ch: Choice)
    requires Consistent(c) && Enabled(c, ch)
    requires c.pc.Enter? || c.pc.Choose?
    ensures PaysFor(c, Next(c, ch), CallOf(c, ch))
  {
    match c.pc
    case Enter =>
    case Choose =>
  }

  lemma RefundPays(c: Caller, ch: Choice)
    requires Consistent(c) && Enabled(c, ch)
    requires c.pc.Undo? || c.pc.GiveBack?
    ensures PaysFor(c, Next(c, ch), CallOf(c, ch))
  {
    match c.pc
    case Undo(next, upto, after) =>
    case GiveBack(next, after) =>
  }

  lemma StepPays(c: Caller, ch: Choice)
    requires Consistent(c) && Enabled(c, ch)
    ensures PaysFor(c, Next(c, ch), CallOf(c, ch))
  {
    match c.pc
    case Undo(_, _, _) => RefundPays(c, ch);
    case GiveBack(_, _) => RefundPays(c, ch);
    case Answered(_) =>
    case Commit(_) => GrantPays(c, ch);
    case Queue(_) => GrantPays(c, ch);
    case Sleep =>
    case Mature =>
    case _ => ChoicePays(c, ch);
  }

  lemma {:induction false} HoldsSame(c: Caller, d: Caller, l: nat, n: nat)
    requires n <= |c.items| && d.items == c.items
    requires forall i: nat | i < n :: Paid(d, i) == Paid(c, i)
    ensures Holds(d, l, n) == Holds(c, l, n)
  {
    if n > 0 { HoldsSame(c, d, l, n - 1); }
  }

  lemma {:induction false} HoldsFlip(c: Caller, d: Caller, l: nat, k: nat, n: nat)
    requires n <= |c.items| && d.items == c.items && k < n
    requires forall i: nat | i < n && i != k :: Paid(d, i) == Paid(c, i)
    requires Paid(d, k) != Paid(c, k)
    ensures Holds(d, l, n) == Holds(c, l, n)
              + if c.items[k].limiter != l then 0 else if Paid(c, k) then -(c.items[k].cost as int) else c.items[k].cost
  {
    if k == n - 1 {
      HoldsSame(c, d, l, n - 1);
    } else {
      HoldsFlip(c, d, l, k, n - 1);
    }
  }

  // --- Conservation ------------------------------------------------------------------------------------

  ghost predicate Inv(s: State) {
    && (forall w | 0 <= w < |s.callers| :: Consistent(s.callers[w]) && WithinConstituents(s.callers[w].items, |s.taken|))
    && (forall l | 0 <= l < |s.taken| :: s.taken[l] == Sum(s.callers, HoldsOf(l)))
  }

  /** Units of constituent `l` a call takes. */
  function UnitsAt(c: Caller, call: Option<(nat, int)>, l: nat): int {
    match call
    case None => 0
    case Some((k, units)) => if k < |c.items| && c.items[k].limiter == l then units else 0
  }

  lemma CallMovesHolds(c: Caller, d: Caller, call: Option<(nat, int)>, l: nat)
    requires d.items == c.items && PaysFor(c, d, call)
    ensures HoldsOf(l)(d) == HoldsOf(l)(c) + UnitsAt(c, call, l)
  {
    match call
    case None => HoldsSame(c, d, l, |c.items|);
    case Some((k, _)) => HoldsFlip(c, d, l, k, |c.items|);
  }

  lemma ActKeeps(s: State, w: nat, ch: Choice)
    requires Inv(s) && CanMove(s, Act(w, ch))
    ensures Inv(Apply(s, Act(w, ch)))
  {
    var c := s.callers[w];
    var d := Next(c, ch);
    var call := CallOf(c, ch);
    var t := Apply(s, Act(w, ch));
    NextConsistent(c, ch);
    StepPays(c, ch);
    assert t.callers == s.callers[w := d];
    forall l | 0 <= l < |t.taken| ensures t.taken[l] == Sum(t.callers, HoldsOf(l)) {
      SumUpdate(s.callers, w, d, HoldsOf(l));
      CallMovesHolds(c, d, call, l);
      assert t.taken[l] == s.taken[l] + UnitsAt(c, call, l);
    }
  }

  lemma ArriveKeeps(s: State, m: Move)
    requires Inv(s) && m.Arrive? && CanMove(s, m)
    ensures Inv(Apply(s, m))
  {
    var t := Apply(s, m);
    var c := t.callers[|s.callers|];
    forall l | 0 <= l < |t.taken| ensures t.taken[l] == Sum(t.callers, HoldsOf(l)) {
      SumConcat(s.callers, [c], HoldsOf(l));
      NothingHeld(c, l, |c.items|);
      assert Sum([c], HoldsOf(l)) == Sum([], HoldsOf(l)) + HoldsOf(l)(c) by { assert [c][..0] == []; }
    }
  }

  lemma {:induction false} NothingHeld(c: Caller, l: nat, n: nat)
    requires n <= |c.items| && forall i: nat | i < n :: !Paid(c, i)
    ensures Holds(c, l, n) == 0
  {
    if n > 0 { NothingHeld(c, l, n - 1); }
  }

  lemma {:induction false} EverythingHeld(c: Caller, l: nat, n: nat)
    requires n <= |c.items| && forall i: nat | i < n :: Paid(c, i)
    ensures Holds(c, l, n) == Charge(c.items[..n], l)
  {
    if n > 0 {
      EverythingHeld(c, l, n - 1);
      assert c.items[..n][..n - 1] == c.items[..n - 1];
    }
  }

  lemma {:induction false} RunKeeps(s: State, moves: seq<Move>, t: State)
    requires Inv(s) && Runs(s, moves, t)
    ensures Inv(t) && |t.taken| == |s.taken|
    decreases |moves|
  {
    if moves != [] {
      match moves[0] {
        case Arrive(_, _, _) => ArriveKeeps(s, moves[0]);
        case Act(w, ch) => ActKeeps(s, w, ch);
      }
      RunKeeps(Apply(s, moves[0]), moves[1..], t);
    }
  }

  lemma BeginInv(n: nat)
    ensures Inv(Begin(n))
  {
  }

  /** Conservation, in every interleaving of any number of callers with cancellation at any await: what
      has been taken from a constituent and not refunded is exactly what the callers' progress and
      calls under way hold. */
  lemma Conservation(n: nat, moves: seq<Move>, t: State, l: nat)
    requires Runs(Begin(n), moves, t) && l < n
    ensures |t.taken| == n && t.taken[l] == Sum(t.callers, HoldsOf(l))
  {
    BeginInv(n);
    RunKeeps(Begin(n), moves, t);
  }

  /** All or nothing: a caller that finished with success holds one full charge of every constituent,
      and one that failed, timed out or was dropped holds nothing. */
  lemma AllOrNothing(n: nat, moves: seq<Move>, t: State, w: nat, l: nat)
    requires Runs(Begin(n), moves, t) && w < |t.callers| && t.callers[w].pc.Finished?
    ensures HoldsOf(l)(t.callers[w]) == if t.callers[w].pc.result == Ok then Charge(t.callers[w].items, l) else 0
  {
    BeginInv(n);
    RunKeeps(Begin(n), moves, t);
    var c := t.callers[w];
    assert c.items[..|c.items|] == c.items;
    if c.pc.result == Ok {
      EverythingHeld(c, l, |c.items|);
    } else {
      NothingHeld(c, l, |c.items|);
    }
  }

  function SuccessCharge(l: nat): Caller -> int {
    (c: Caller) => if c.pc == Finished(Ok) then Charge(c.items, l) else 0
  }

  /** So once every caller has finished, the units gone from a constituent are exactly those of the
      successful requests. */
  lemma OnlySuccessesPay(n: nat, moves: seq<Move>, t: State, l: nat)
    requires Runs(Begin(n), moves, t) && l < n
    requires forall w | 0 <= w < |t.callers| :: t.callers[w].pc.Finished?
    ensures |t.taken| == n && t.taken[l] == Sum(t.callers, SuccessCharge(l))
  {
    Conservation(n, moves, t, l);
    forall w | 0 <= w < |t.callers| ensures HoldsOf(l)(t.callers[w]) == SuccessCharge(l)(t.callers[w]) {
      AllOrNothing(n, moves, t, w, l);
    }
    SumSame(t.callers, HoldsOf(l), SuccessCharge(l));
  }

  lemma {:induction false} SumSame(cs: seq<Caller>, f: Caller -> int, g: Caller -> int)
    requires forall w | 0 <= w < |cs| :: f(cs[w]) == g(cs[w])
    ensures Sum(cs, f) == Sum(cs, g)
  {
    if cs != [] { SumSame(cs[..|cs| - 1], f, g); }
  }

  // --- Who succeeds ---------------------------------------------------------------------------------------

  /** What a caller's choice can be the end of: its time was up, it was dropped, something can never be granted,
      or a call was refused. */
  predicate Brings(ch: Choice, r: Result) {
    match r
    case Ok => false
    case TimedOut => ch == GiveUp
    case Dropped => ch == Drop
    case Never => ch == Impossible || (ch.Call? && !ch.granted && ch.never)
    case Refused => ch.Call? && !ch.granted
  }

  /** Somewhere in the run, caller `w` makes such a choice. */
  ghost predicate Brought(s: State, moves: seq<Move>, w: nat, r: Result)
    decreases |moves|
  {
    && moves != [] && CanMove(s, moves[0])
    && ((moves[0].Act? && moves[0].who == w && Brings(moves[0].choice, r)) || Brought(Apply(s, moves[0]), moves[1..], w, r))
  }

  /** How the caller is bound to end, once that is settled. */
  function Bound(c: Caller): Option<Result> {
    match c.pc
    case Finished(r) => Some(r)
    case Undo(_, _, Fail(r)) => Some(r)
    case Undo(_, _, Say(SayNever)) => Some(Never)
    case GiveBack(_, Fail(r)) => Some(r)
    case GiveBack(_, Say(SayNever)) => Some(Never)
    case Answered(SayNever) => Some(Never)
    case _ => None
  }

  lemma BoundBy(c: Caller, ch: Choice, r: Result)
    requires Consistent(c) && Enabled(c, ch) && r != Ok && Bound(Next(c, ch)) == Some(r)
    ensures Bound(c) == Some(r) || Brings(ch, r)
  {
  }

  lemma MoveKeeps(s: State, m: Move)
    requires Inv(s) && CanMove(s, m)
    ensures Inv(Apply(s, m))
  {
    match m
    case Arrive(_, _, _) => ArriveKeeps(s, m);
    case Act(w, ch) => ActKeeps(s, w, ch);
  }

  lemma BoundStep(s: State, m: Move, w: nat, r: Result)
    requires Inv(s) && CanMove(s, m) && r != Ok
    requires w < |Apply(s, m).callers| && Bound(Apply(s, m).callers[w]) == Some(r)
    ensures (w < |s.callers| && Bound(s.callers[w]) == Some(r)) || (m.Act? && m.who == w && Brings(m.choice, r))
  {
    hide Next, Brings;
    if m.Act? && m.who == w { BoundBy(s.callers[w], m.choice, r); }
  }

  lemma {:induction false} BoundWhy(s: State, moves: seq<Move>, t: State, w: nat, r: Result)
    requires Inv(s) && Runs(s, moves, t) && r != Ok && w < |t.callers| && Bound(t.callers[w]) == Some(r)
    ensures Brought(s, moves, w, r) || (w < |s.callers| && Bound(s.callers[w]) == Some(r))
    decreases |moves|
  {
    hide Apply, CanMove, Inv, Bound, Brings;
    if moves != [] {
      MoveKeeps(s, moves[0]);
      BoundWhy(Apply(s, moves[0]), moves[1..], t, w, r);
      if !Brought(s, moves, w, r) { BoundStep(s, moves[0], w, r); }
    }
  }

  /** Over every run, a request fails only for a reason of its own: it timed out because it gave up, was dropped
      because its future was, is impossible because something said so, and was refused because a call of its own
      was. */
  lemma FailsOnlyForCause(n: nat, moves: seq<Move>, t: State, w: nat)
    requires Runs(Begin(n), moves, t) && w < |t.callers| && t.callers[w].pc.Finished? && t.callers[w].pc.result != Ok
    ensures Brought(Begin(n), moves, w, t.callers[w].pc.result)
  {
    BeginInv(n);
    BoundWhy(Begin(n), moves, t, w, t.callers[w].pc.result);
  }

  /** The caller is taking or reserving one constituent after another, or has them all and is not giving them
      back. */
  predicate OnItsWay(c: Caller) {
    c.pc.Commit? || c.pc.Queue? || (c.held == All && !c.pc.GiveBack?)
  }

  /** The caller's own moves: every call is granted, and none gives up or drops the future. */
  ghost predicate Unhindered(moves: seq<Move>, w: nat) {
    forall i | 0 <= i < |moves| && moves[i].Act? && moves[i].who == w ::
      !moves[i].choice.GiveUp? && !moves[i].choice.Drop? && (moves[i].choice.Call? ==> moves[i].choice.granted)
  }

  predicate IsOwn(m: Move, w: nat) {
    m.Act? && m.who == w
  }

  function OwnMoves(moves: seq<Move>, w: nat): nat {
    if moves == [] then 0 else (if IsOwn(moves[0], w) then 1 else 0) + OwnMoves(moves[1..], w)
  }

  /** Moves left to success: one for each constituent still to take, one to conclude, and two of the engine. */
  function ToGo(c: Caller): nat
    requires Consistent(c)
  {
    match c.pc
    case Commit(next) => |c.items| - next + if c.waiting then 3 else 1
    case Queue(next) => |c.items| - next + if c.waiting then 3 else 1
    case Answered(_) => 2
    case Mature => 1
    case _ => 0
  }

  lemma NextOnItsWay(c: Caller, ch: Choice)
    requires Consistent(c) && Enabled(c, ch) && OnItsWay(c)
    requires !ch.GiveUp? && !ch.Drop? && (ch.Call? ==> ch.granted)
    ensures Consistent(Next(c, ch)) && OnItsWay(Next(c, ch)) && ToGo(Next(c, ch)) == ToGo(c) - 1
  {
    NextConsistent(c, ch);
  }

  lemma OnItsWayStep(s: State, m: Move, w: nat)
    requires Inv(s) && CanMove(s, m) && w < |s.callers| && OnItsWay(s.callers[w]) && Unhindered([m], w)
    ensures w < |Apply(s, m).callers|
    ensures var c, d := s.callers[w], Apply(s, m).callers[w];
            && d.items == c.items && Consistent(c) && Consistent(d) && OnItsWay(d)
            && ToGo(d) == ToGo(c) - if IsOwn(m, w) then 1 else 0
  {
    hide OnItsWay, ToGo, Next, Consistent;
    assert [m][0] == m;
    if IsOwn(m, w) {
      NextConsistent(s.callers[w], m.choice);
      NextOnItsWay(s.callers[w], m.choice);
    }
  }

  /** From every reachable state, whatever the others do: a request under way to all its constituents, none of
      whose calls is refused and which neither gives up nor is dropped, stays on its way, and has succeeded once it
      has made the moves that were left, each constituent paid for. */
  lemma {:induction false} UnhinderedSucceeds(s: State, moves: seq<Move>, t: State, w: nat, l: nat)
    requires Inv(s) && Runs(s, moves, t) && w < |s.callers| && OnItsWay(s.callers[w]) && Unhindered(moves, w)
    ensures Consistent(s.callers[w])
    ensures w < |t.callers| && t.callers[w].items == s.callers[w].items && OnItsWay(t.callers[w])
    ensures OwnMoves(moves, w) >= ToGo(s.callers[w]) ==>
              t.callers[w].pc == Finished(Ok) && HoldsOf(l)(t.callers[w]) == Charge(s.callers[w].items, l)
    decreases |moves|
  {
    if moves == [] {
      SucceededPays(s.callers[w], l);
    } else {
      hide Apply, CanMove, Inv, OnItsWay, ToGo, HoldsOf, Consistent;
      assert moves[0] == [moves[0]][0];
      OnItsWayStep(s, moves[0], w);
      MoveKeeps(s, moves[0]);
      assert Unhindered(moves[1..], w) by {
        forall i | 0 <= i < |moves[1..]| ensures moves[1..][i] == moves[i + 1] {}
      }
      UnhinderedSucceeds(Apply(s, moves[0]), moves[1..], t, w, l);
    }
  }

  lemma SucceededPays(c: Caller, l: nat)
    requires Consistent(c) && OnItsWay(c)
    ensures ToGo(c) == 0 ==> c.pc == Finished(Ok) && HoldsOf(l)(c) == Charge(c.items, l)
  {
    if ToGo(c) == 0 {
      assert c.items[..|c.items|] == c.items;
      EverythingHeld(c, l, |c.items|);
    }
  }

  /** A request that does not wait is on its way as soon as it arrives. */
  lemma ArrivesOnItsWay(s: State, items: seq<Item>, queueing: bool)
    requires CanMove(s, Arrive(items, false, queueing))
    ensures var c := Apply(s, Arrive(items, false, queueing)).callers[|s.callers|];
            OnItsWay(c) && Consistent(c) && ToGo(c) == |items| + 1
  {
  }

  /** A waiting request that finds every constituent ready, or the others nearly so once its bottleneck has
      matured, is on its way with its next choice. */
  lemma StartsOnItsWay(c: Caller, ch: Choice)
    requires Consistent(c) && (ch == Start || ch == Reserve) && (c.pc == Choose || (c.pc == Enter && c.held.One?))
    requires ch == Reserve ==> c.pc == Enter
    ensures Enabled(c, ch) && OnItsWay(Next(c, ch)) && Consistent(Next(c, ch)) && ToGo(Next(c, ch)) == |c.items| + 3
  {
  }

  // --- What a choice decides --------------------------------------------------------------------------------

  /** The end a choice brings on, if it does: something can never be granted, a call of one who does not wait is
      refused, time is up, or the future is dropped. */
  function Decides(c: Caller, ch: Choice): Option<Result> {
    match c.pc
    case Enter => if ch == Impossible then Some(Never) else None
    case Choose => if ch == Impossible then Some(Never) else None
    case Commit(_) =>
      if !ch.Call? || ch.granted then None
      else if !c.waiting then Some(Refused) else if c.held == Nothing && ch.never then Some(Never) else None
    case Queue(_) => if ch.Call? && !ch.granted && !c.waiting then Some(Refused) else None
    case _ => if ch == Drop then Some(Dropped) else if ch == GiveUp then Some(TimedOut) else None
  }

  lemma DecidesBound(c: Caller, ch: Choice)
    requires Consistent(c) && Enabled(c, ch) && Decides(c, ch).Some?
    ensures Bound(Next(c, ch)) == Decides(c, ch)
  {
  }

  lemma BoundStays(c: Caller, ch: Choice)
    requires Consistent(c) && Enabled(c, ch) && Bound(c).Some?
    ensures Bound(Next(c, ch)) == Bound(c) && Distance(c) > 0
    ensures Consistent(Next(c, ch)) && Distance(Next(c, ch)) < Distance(c)
  {
    NextConsistent(c, ch);
  }

  /** In whatever interleaving, a request stays bound to the end its choice brought on, until it has come to it;
      which it has once it made the moves that were left. */
  lemma {:induction false} BoundRemains(s: State, moves: seq<Move>, t: State, w: nat)
    requires Inv(s) && Runs(s, moves, t) && w < |s.callers| && Bound(s.callers[w]).Some?
    ensures w < |t.callers| && Bound(t.callers[w]) == Bound(s.callers[w])
    ensures Consistent(s.callers[w])
    ensures OwnMoves(moves, w) >= Distance(s.callers[w]) ==> t.callers[w].pc == Finished(Bound(s.callers[w]).value)
    decreases |moves|
  {
    if moves == [] {
      AtTheEnd(s.callers[w]);
    } else {
      hide Next, Inv, Bound, Distance, Consistent;
      MoveKeeps(s, moves[0]);
      BoundMove(s, moves[0], w);
      hide Apply;
      BoundRemains(Apply(s, moves[0]), moves[1..], t, w);
    }
  }

  lemma BoundMove(s: State, m: Move, w: nat)
    requires Inv(s) && CanMove(s, m) && w < |s.callers| && Bound(s.callers[w]).Some?
    ensures var c, d := s.callers[w], Apply(s, m).callers[w];
            && Consistent(c) && Consistent(d) && Bound(d) == Bound(c)
            && (if IsOwn(m, w) then Distance(d) < Distance(c) else d == c)
  {
    hide Next, Bound, Distance;
    if IsOwn(m, w) { BoundStays(s.callers[w], m.choice); }
  }

  lemma AtTheEnd(c: Caller)
    requires Consistent(c) && Bound(c).Some?
    ensures Distance(c) == 0 ==> c.pc == Finished(Bound(c).value)
  {
  }

  /** The caller is letting its matured bottleneck go: first whatever it reserved beside it, then that. */
  predicate LettingGo(c: Caller) {
    (c.pc.Undo? && c.pc.after == Release) || (c.pc.GiveBack? && c.pc.after == Reconsider)
  }

  /** When another constituent turns out to need longer, or cannot be reserved beside it, the matured bottleneck is
      let go, and the request looks again empty-handed. */
  lemma BottleneckLetGo(c: Caller, ch: Choice)
    requires Consistent(c) && Enabled(c, ch)
    requires (c.pc == Enter && ch == Switch) || (c.pc.Queue? && c.waiting && ch.Call? && !ch.granted) || LettingGo(c)
    ensures var d := Next(c, ch);
            && Consistent(d)
            && (LettingGo(c) ==> Distance(d) < Distance(c))
            && (LettingGo(d) || (LettingGo(c) && d.pc == Choose && d.held == Nothing))
  {
    NextConsistent(c, ch);
  }

  /** The caller keeps its bottleneck's units and is on its way to sleep. */
  predicate Keeping(c: Caller) {
    c.held.One? && ((c.pc.Undo? && c.pc.after == Say(SayHolding)) || c.pc == Answered(SayHolding) || c.pc == Sleep)
  }

  /** When the bottleneck has not matured, or the others are lost to a concurrent caller (they are acquired, not
      reserved), it is kept: the request sleeps with the guard armed before it looks again, unless it gives up. */
  lemma BottleneckKept(c: Caller, ch: Choice)
    requires Consistent(c) && Enabled(c, ch) && c.held.One?
    ensures c.pc == Enter && (ch == Wait || ch == Race) ==> Keeping(Next(c, ch)) && Next(c, ch).held == c.held
    ensures c.pc == Enter && ch == Start ==> Next(c, ch).pc.Commit? && Next(c, ch).held == c.held
    ensures c.pc.Commit? && ch.Call? && !ch.granted ==> Keeping(Next(c, ch)) && Next(c, ch).held == c.held
    ensures Keeping(c) && !ch.GiveUp? && !ch.Drop? ==>
              var d := Next(c, ch);
              && Consistent(d) && d.held == c.held && Distance(d) < Distance(c)
              && (Keeping(d) || (c.pc == Sleep && c.armed && d.pc == Enter))
  {
    NextConsistent(c, ch);
  }

  // --- No dead ends ---------------------------------------------------------------------------------------

  /** These choices of its own take the caller from `c` to `d`. */
  ghost predicate Chooses(c: Caller, choices: seq<Choice>, d: Caller)
    decreases |choices|
  {
    if choices == [] then c == d
    else Enabled(c, choices[0]) && Chooses(Next(c, choices[0]), choices[1..], d)
  }

  /** A choice that leads on to success, where all is well for once. */
  function Lucky(c: Caller): Choice {
    match c.pc
    case Enter => if c.held.One? then Start else Go
    case Choose => Start
    case Commit(next) => if next < |c.items| && !Skips(c, next) then Call(true, false) else Go
    case Queue(next) => if next < |c.items| && !Skips(c, next) then Call(true, false) else Go
    case Answered(a) => if a == SayHolding || a == SayRetry then Wait else Go
    case _ => Go
  }

  /** How far it is to success on lucky choices. */
  function Distance(c: Caller): nat
    requires Consistent(c)
  {
    var n := |c.items|;
    match c.pc
    case Finished(_) => 0
    case Mature => 1
    case Answered(a) => if a == SayGranted then 2 else if a == SayNever then 1 else n + 8
    case Commit(next) => 3 + n - next
    case Queue(next) => 3 + n - next
    case Choose => n + 5
    case Enter => n + 6
    case Sleep => n + 7
    case GiveBack(next, _) => 2 * n + 6 - next
    case Undo(next, upto, _) => 3 * n + 9 + upto - next
  }

  /** A lucky choice leads nearer to success. */
  predicate Nears(c: Caller, d: Caller) {
    Consistent(c) && Consistent(d) && Bound(d) in {None, Some(Ok)} && Distance(d) < Distance(c)
  }

  lemma LuckyTaking(c: Caller)
    requires Consistent(c) && (c.pc.Enter? || c.pc.Choose? || c.pc.Commit? || c.pc.Queue?)
    ensures Enabled(c, Lucky(c)) && Nears(c, Next(c, Lucky(c)))
  {
    NextConsistent(c, Lucky(c));
  }

  lemma LuckyUndoing(c: Caller)
    requires Consistent(c) && Bound(c) == None && (c.pc.Undo? || c.pc.GiveBack?)
    ensures Enabled(c, Lucky(c)) && Nears(c, Next(c, Lucky(c)))
  {
    NextConsistent(c, Lucky(c));
  }

  lemma LuckyEngine(c: Caller)
    requires Consistent(c) && Bound(c) == None && (c.pc.Answered? || c.pc.Sleep? || c.pc.Mature?)
    ensures Enabled(c, Lucky(c)) && Nears(c, Next(c, Lucky(c)))
  {
    NextConsistent(c, Lucky(c));
  }

  lemma LuckyStep(c: Caller)
    requires Consistent(c) && Bound(c) == None
    ensures Enabled(c, Lucky(c)) && Nears(c, Next(c, Lucky(c)))
  {
    hide Nears, Consistent, Lucky, Next, Enabled;
    match c.pc
    case Undo(_, _, _) => LuckyUndoing(c);
    case GiveBack(_, _) => LuckyUndoing(c);
    case Answered(_) => LuckyEngine(c);
    case Sleep => LuckyEngine(c);
    case Mature => LuckyEngine(c);
    case _ => if !c.pc.Finished? { LuckyTaking(c); }
  }

  /** A request, waiting or not, that is not bound to fail has a way to succeed from wherever it is, by its own moves
      alone: sleeping, rolled back, or giving back what it holds. */
  lemma {:induction false} CanStillSucceed(c: Caller) returns (choices: seq<Choice>, d: Caller)
    requires Consistent(c) && Bound(c) in {None, Some(Ok)}
    ensures Chooses(c, choices, d) && d.pc == Finished(Ok)
    decreases Distance(c)
  {
    hide Next, Enabled, Consistent, Lucky;
    if Bound(c) == None {
      LuckyStep(c);
      choices, d := CanStillSucceed(Next(c, Lucky(c)));
      choices := [Lucky(c)] + choices;
    } else {
      choices, d := [], c;
      BoundToSucceed(c);
    }
  }

  lemma BoundToSucceed(c: Caller)
    requires Consistent(c) && Bound(c) == Some(Ok)
    ensures c.pc == Finished(Ok)
  {
  }
}

/** How outcomes move the adaptive limit. Settling a permit reads the in-flight count, checks the
    permit's decrease epoch, loads the limit, compare-exchanges the strategy's answer for it, and only
    then bumps the epoch after a decrease; any number of settles interleave step by step.

    The strategy is an arbitrary stateless function: its answer is clamped to `[floor, ceiling]`. */
module Adaptive {
  import opened Common

  datatype Outcome = Success(rtt: nat) | Failure

  datatype Config = Config(floor: nat, ceiling: nat, adjust: (nat, nat, Outcome) -> nat)

  /** The limit the strategy asks for after `outcome`, within the bounds. */
  function Proposed(cfg: Config, current: nat, inFlight: nat, outcome: Outcome): nat
    requires cfg.floor <= cfg.ceiling
  {
    Max(cfg.floor, Min(cfg.ceiling, cfg.adjust(current, inFlight, outcome)))
  }

  datatype Phase =
    | Held                    // the permit is out
    | Started                 // settling: the in-flight count is read
    | Checked                 // past the epoch check, about to load the limit
    | Trying(current: nat)    // about to compare-exchange
    | Lowered(at: nat)        // a failure lowered the limit (report `at`); the epoch bump is next
    | Applied(at: nat)        // done; report `at` is this outcome's
    | Skipped                 // done; a stale failure

  datatype Permit = Permit(epoch: nat, outcome: Outcome, inFlight: nat, phase: Phase)

  /** One application of an outcome to the limit. */
  datatype Report = Report(who: nat, before: nat, after: nat)

  datatype State = State(limit: nat, epoch: nat, permits: seq<Permit>, applied: seq<Report>)

  datatype Move =
    | Admit
    | Settle(who: nat, outcome: Outcome, inFlight: nat)
    | CheckEpoch(who: nat)
    | Load(who: nat)      // also a failed exchange, which returns the actual limit
    | Swap(who: nat)
    | Bump(who: nat)

  predicate Enabled(cfg: Config, s: State, m: Move) {
    if m.Admit? then true
    else m.who < |s.permits| && match m
      case Settle(i, _, _) => s.permits[i].phase == Held
      case CheckEpoch(i) => s.permits[i].phase == Started
      case Load(i) => s.permits[i].phase == Checked || s.permits[i].phase.Trying?
      case Swap(i) => s.permits[i].phase == Trying(s.limit)
      case Bump(i) => s.permits[i].phase.Lowered?
  }

  function Put(s: State, i: nat, phase: Phase): State
    requires i < |s.permits|
  {
    s.(permits := s.permits[i := s.permits[i].(phase := phase)])
  }

  function Target(cfg: Config, s: State, i: nat): nat
    requires cfg.floor <= cfg.ceiling && i < |s.permits|
  {
    Proposed(cfg, s.limit, s.permits[i].inFlight, s.permits[i].outcome)
  }

  function Log(cfg: Config, s: State, i: nat): seq<Report>
    requires cfg.floor <= cfg.ceiling && i < |s.permits|
  {
    s.applied + [Report(i, s.limit, Target(cfg, s, i))]
  }

  function Apply(cfg: Config, s: State, m: Move): State
    requires cfg.floor <= cfg.ceiling && Enabled(cfg, s, m)
  {
    match m
    case Admit => s.(permits := s.permits + [Permit(s.epoch, Failure, 0, Held)])
    case Settle(i, outcome, inFlight) =>
      s.(permits := s.permits[i := Permit(s.permits[i].epoch, outcome, inFlight, Started)])
    case CheckEpoch(i) =>
      Put(s, i, if s.permits[i].outcome == Failure && s.permits[i].epoch < s.epoch then Skipped else Checked)
    case Load(i) =>
      // The answer for the loaded limit decides at once whether there is anything to store.
      if Target(cfg, s, i) == s.limit then Put(s, i, Applied(|s.applied|)).(applied := Log(cfg, s, i))
      else Put(s, i, Trying(s.limit))
    case Swap(i) =>
      Put(s, i, if s.permits[i].outcome == Failure && Target(cfg, s, i) < s.limit then Lowered(|s.applied|) else Applied(|s.applied|))
        .(limit := Target(cfg, s, i), applied := Log(cfg, s, i))
    case Bump(i) => Put(s, i, Applied(s.permits[i].phase.at)).(epoch := s.epoch + 1)
  }

  ghost predicate Runs(cfg: Config, s: State, moves: seq<Move>, t: State)
    requires cfg.floor <= cfg.ceiling
    decreases |moves|
  {
    if moves == [] then s == t
    else Enabled(cfg, s, moves[0]) && Runs(cfg, Apply(cfg, s, moves[0]), moves[1..], t)
  }

  function Start(limit: nat): State {
    State(limit, 0, [], [])
  }

  // --- The limit is a fold of the applied outcomes ------------------------------------------------

  /** `limit` is what applying the reported outcomes one after another, in this order, makes of
      `initial`. */
  predicate IsFold(cfg: Config, initial: nat, permits: seq<Permit>, applied: seq<Report>, limit: nat)
    requires cfg.floor <= cfg.ceiling
  {
    if applied == [] then limit == initial
    else
      var last := applied[|applied| - 1];
      && last.who < |permits|
      && limit == last.after == Proposed(cfg, last.before, permits[last.who].inFlight, permits[last.who].outcome)
      && IsFold(cfg, initial, permits, applied[..|applied| - 1], last.before)
  }

  predicate WasApplied(p: Permit) {
    p.phase.Lowered? || p.phase.Applied?
  }

  /** Reports and applied permits point at each other. */
  predicate Indexed(s: State) {
    && (forall a | 0 <= a < |s.applied| ::
          && s.applied[a].who < |s.permits|
          && WasApplied(s.permits[s.applied[a].who]) && s.permits[s.applied[a].who].phase.at == a)
    && (forall i | 0 <= i < |s.permits| && WasApplied(s.permits[i]) ::
          s.permits[i].phase.at < |s.applied| && s.applied[s.permits[i].phase.at].who == i)
  }

  predicate Inv(cfg: Config, initial: nat, s: State)
    requires cfg.floor <= cfg.ceiling
  {
    && cfg.floor <= s.limit <= cfg.ceiling
    && IsFold(cfg, initial, s.permits, s.applied, s.limit)
    && Indexed(s)
  }

  /** The fold depends only on the permits already applied. */
  lemma {:induction false} FoldFrame(cfg: Config, initial: nat, ps: seq<Permit>, qs: seq<Permit>, applied: seq<Report>, limit: nat)
    requires cfg.floor <= cfg.ceiling && IsFold(cfg, initial, ps, applied, limit)
    requires forall a | 0 <= a < |applied| ::
               && applied[a].who < |ps| && applied[a].who < |qs|
               && qs[applied[a].who].inFlight == ps[applied[a].who].inFlight
               && qs[applied[a].who].outcome == ps[applied[a].who].outcome
    ensures IsFold(cfg, initial, qs, applied, limit)
  {
    if applied != [] {
      var n := |applied| - 1;
      assert applied[n].who < |qs|;
      forall a | 0 <= a < n ensures applied[..n][a] == applied[a] {}
      FoldFrame(cfg, initial, ps, qs, applied[..n], applied[n].before);
    }
  }

  /** The move stores an outcome (possibly one that leaves the limit where it is). */
  predicate Stores(cfg: Config, s: State, m: Move)
    requires cfg.floor <= cfg.ceiling && Enabled(cfg, s, m)
  {
    m.Swap? || (m.Load? && Target(cfg, s, m.who) == s.limit)
  }

  lemma IndexedStep(cfg: Config, s: State, m: Move)
    requires cfg.floor <= cfg.ceiling && Indexed(s) && Enabled(cfg, s, m)
    ensures Indexed(Apply(cfg, s, m))
  {
    hide Apply, Indexed;
    if Stores(cfg, s, m) {
      IndexedStore(cfg, s, m);
    } else {
      IndexedQuiet(cfg, s, m);
    }
  }

  lemma IndexedStore(cfg: Config, s: State, m: Move)
    requires cfg.floor <= cfg.ceiling && Indexed(s) && Enabled(cfg, s, m) && Stores(cfg, s, m)
    ensures Indexed(Apply(cfg, s, m))
  {
    hide Proposed;
  }

  lemma IndexedQuiet(cfg: Config, s: State, m: Move)
    requires cfg.floor <= cfg.ceiling && Indexed(s) && Enabled(cfg, s, m) && !Stores(cfg, s, m)
    ensures Indexed(Apply(cfg, s, m))
  {
    hide Proposed;
  }

  lemma QuietStepKeeps(cfg: Config, initial: nat, s: State, m: Move)
    requires cfg.floor <= cfg.ceiling && Inv(cfg, initial, s) && Enabled(cfg, s, m) && !Stores(cfg, s, m)
    ensures Inv(cfg, initial, Apply(cfg, s, m))
  {
    var t := Apply(cfg, s, m);
    IndexedStep(cfg, s, m);
    FoldFrame(cfg, initial, s.permits, t.permits, s.applied, s.limit);
    hide Indexed, IsFold;
  }

  lemma StoreStepKeeps(cfg: Config, initial: nat, s: State, m: Move)
    requires cfg.floor <= cfg.ceiling && Inv(cfg, initial, s) && Enabled(cfg, s, m) && Stores(cfg, s, m)
    ensures Inv(cfg, initial, Apply(cfg, s, m))
  {
    var t := Apply(cfg, s, m);
    IndexedStep(cfg, s, m);
    StoreStep(cfg, s, m);
    hide Apply, Proposed, Enabled, Stores;
    assert t.applied[..|s.applied|] == s.applied;
    FoldFrame(cfg, initial, s.permits, t.permits, s.applied, s.limit);
    hide Indexed;
  }

  /** What a move that stores an outcome makes of the limit, and what it leaves alone. */
  lemma StoreStep(cfg: Config, s: State, m: Move)
    requires cfg.floor <= cfg.ceiling && Enabled(cfg, s, m) && Stores(cfg, s, m)
    ensures var t := Apply(cfg, s, m);
            && t.applied == s.applied + [Report(m.who, s.limit, t.limit)]
            && t.limit == Proposed(cfg, s.limit, s.permits[m.who].inFlight, s.permits[m.who].outcome)
            && cfg.floor <= t.limit <= cfg.ceiling && |t.permits| == |s.permits|
    ensures forall i | 0 <= i < |s.permits| :: Apply(cfg, s, m).permits[i].inFlight == s.permits[i].inFlight
    ensures forall i | 0 <= i < |s.permits| :: Apply(cfg, s, m).permits[i].outcome == s.permits[i].outcome
  {
  }

  lemma StepKeeps(cfg: Config, initial: nat, s: State, m: Move)
    requires cfg.floor <= cfg.ceiling && Inv(cfg, initial, s) && Enabled(cfg, s, m)
    ensures Inv(cfg, initial, Apply(cfg, s, m))
  {
    if Stores(cfg, s, m) {
      StoreStepKeeps(cfg, initial, s, m);
    } else {
      QuietStepKeeps(cfg, initial, s, m);
    }
  }

  lemma {:induction false} RunKeeps(cfg: Config, initial: nat, s: State, moves: seq<Move>, t: State)
    requires cfg.floor <= cfg.ceiling && Inv(cfg, initial, s) && Runs(cfg, s, moves, t)
    ensures Inv(cfg, initial, t)
    decreases |moves|
  {
    if moves != [] {
      StepKeeps(cfg, initial, s, moves[0]);
      RunKeeps(cfg, initial, Apply(cfg, s, moves[0]), moves[1..], t);
    }
  }

  /** No lost update, in any interleaving and for any stateless strategy: the limit is the left fold
      of the applied outcomes in some order, every outcome that was not skipped as stale and has been
      stored is in that fold exactly once, and the limit stays in bounds. */
  lemma LimitIsFold(cfg: Config, initial: nat, moves: seq<Move>, t: State)
    requires cfg.floor <= initial <= cfg.ceiling && Runs(cfg, Start(initial), moves, t)
    ensures cfg.floor <= t.limit <= cfg.ceiling
    ensures IsFold(cfg, initial, t.permits, t.applied, t.limit)
    ensures forall i | 0 <= i < |t.permits| ::
              WasApplied(t.permits[i]) <==> exists a :: 0 <= a < |t.applied| && t.applied[a].who == i
    ensures forall a, b | 0 <= a < b < |t.applied| :: t.applied[a].who != t.applied[b].who
  {
    RunKeeps(cfg, initial, Start(initial), moves, t);
  }

  // --- One decrease per congestion event ----------------------------------------------------------

  /** The permit of report `a` failed and lowered the limit. */
  predicate Decrease(s: State, a: nat)
    requires a < |s.applied| && s.applied[a].who < |s.permits|
  {
    s.permits[s.applied[a].who].outcome == Failure && s.applied[a].after < s.applied[a].before
  }

  /** Permit `i` failed and lowered the limit. */
  predicate Decreased(s: State, i: nat) {
    && i < |s.permits| && WasApplied(s.permits[i]) && s.permits[i].outcome == Failure
    && s.permits[i].phase.at < |s.applied| && s.applied[s.permits[i].phase.at].after < s.applied[s.permits[i].phase.at].before
  }

  /** A failure past its epoch check that has not settled yet. */
  predicate Committed(p: Permit) {
    p.outcome == Failure && (p.phase == Checked || p.phase.Trying? || p.phase.Lowered?)
  }

  /** Past its check, settled or not, unless it settled without lowering the limit. */
  predicate PastCheck(s: State, i: nat) {
    i < |s.permits| && (Committed(s.permits[i]) || Decreased(s, i))
  }

  /** Failure `j` checks its epoch and passes while `i`, admitted in the same epoch, is past its own check
      and has not bumped the epoch. */
  predicate PassesBeside(s: State, m: Move, i: nat, j: nat) {
    && m == CheckEpoch(j) && i < |s.permits| && j < |s.permits|
    && Committed(s.permits[i]) && s.permits[j].outcome == Failure
    && s.permits[i].epoch == s.permits[j].epoch == s.epoch
  }

  /** At some step of the run, one of the two passes its check beside the other. */
  ghost predicate Overlapped(cfg: Config, s: State, moves: seq<Move>, i: nat, j: nat)
    requires cfg.floor <= cfg.ceiling
    decreases |moves|
  {
    && moves != [] && Enabled(cfg, s, moves[0])
    && (PassesBeside(s, moves[0], i, j) || PassesBeside(s, moves[0], j, i)
        || Overlapped(cfg, Apply(cfg, s, moves[0]), moves[1..], i, j))
  }

  /** A permit about to bump the epoch has lowered the limit; none is from a later epoch than the current
      one, and one that lowered the limit and bumped the epoch is from an earlier one. */
  predicate EpochsKnown(s: State) {
    forall i | 0 <= i < |s.permits| ::
      && s.permits[i].epoch <= s.epoch
      && (s.permits[i].phase.Lowered? ==> Decreased(s, i))
      && (Decreased(s, i) && s.permits[i].phase.Applied? ==> s.permits[i].epoch < s.epoch)
  }

  lemma DecreasedBefore(cfg: Config, initial: nat, s: State, m: Move, i: nat)
    requires cfg.floor <= cfg.ceiling && Inv(cfg, initial, s) && EpochsKnown(s) && Enabled(cfg, s, m) && i < |s.permits|
    ensures Decreased(Apply(cfg, s, m), i) ==> Decreased(s, i) || (m == Swap(i) && s.permits[i].outcome == Failure)
    ensures Decreased(s, i) ==> Decreased(Apply(cfg, s, m), i)
    ensures Apply(cfg, s, m).permits[i].epoch == s.permits[i].epoch
  {
  }

  lemma EpochsStep(cfg: Config, initial: nat, s: State, m: Move)
    requires cfg.floor <= cfg.ceiling && Inv(cfg, initial, s) && EpochsKnown(s) && Enabled(cfg, s, m)
    ensures EpochsKnown(Apply(cfg, s, m)) && Apply(cfg, s, m).epoch >= s.epoch
  {
    var t := Apply(cfg, s, m);
    forall i | 0 <= i < |t.permits|
      ensures t.permits[i].epoch <= t.epoch
      ensures t.permits[i].phase.Lowered? ==> Decreased(t, i)
      ensures Decreased(t, i) && t.permits[i].phase.Applied? ==> t.permits[i].epoch < t.epoch
    {
      if i < |s.permits| { DecreasedBefore(cfg, initial, s, m, i); }
    }
  }

  /** Two permits of one epoch are not both past their checks. */
  predicate Apart(s: State, i: nat, j: nat) {
    PastCheck(s, i) && PastCheck(s, j) ==> s.permits[i].epoch != s.permits[j].epoch
  }

  /** Only a check can put a second failure of an epoch past it, and only beside the first. */
  lemma ApartStep(cfg: Config, initial: nat, s: State, m: Move, i: nat, j: nat)
    requires cfg.floor <= cfg.ceiling && Inv(cfg, initial, s) && EpochsKnown(s) && Enabled(cfg, s, m)
    requires i != j && Apart(s, i, j) && !PassesBeside(s, m, i, j) && !PassesBeside(s, m, j, i)
    ensures Apart(Apply(cfg, s, m), i, j)
  {
    var t := Apply(cfg, s, m);
    if i < |s.permits| && j < |s.permits| {
      DecreasedBefore(cfg, initial, s, m, i);
      DecreasedBefore(cfg, initial, s, m, j);
      assert PastCheck(t, i) ==> PastCheck(s, i) || m == CheckEpoch(i);
      assert PastCheck(t, j) ==> PastCheck(s, j) || m == CheckEpoch(j);
    }
  }

  lemma {:induction false} ApartUnlessOverlapped(cfg: Config, initial: nat, s: State, moves: seq<Move>, t: State, i: nat, j: nat)
    requires cfg.floor <= cfg.ceiling && Inv(cfg, initial, s) && EpochsKnown(s) && Runs(cfg, s, moves, t)
    requires i != j && Apart(s, i, j)
    ensures Overlapped(cfg, s, moves, i, j) || Apart(t, i, j)
    decreases |moves|
  {
    if moves != [] && !PassesBeside(s, moves[0], i, j) && !PassesBeside(s, moves[0], j, i) {
      StepKeeps(cfg, initial, s, moves[0]);
      EpochsStep(cfg, initial, s, moves[0]);
      ApartStep(cfg, initial, s, moves[0], i, j);
      ApartUnlessOverlapped(cfg, initial, Apply(cfg, s, moves[0]), moves[1..], t, i, j);
    }
  }

  lemma {:induction false} EpochsFixed(cfg: Config, s: State, moves: seq<Move>, t: State, i: nat)
    requires cfg.floor <= cfg.ceiling && Runs(cfg, s, moves, t) && i < |s.permits|
    ensures i < |t.permits| && t.permits[i].epoch == s.permits[i].epoch
    decreases |moves|
  {
    if moves != [] { EpochsFixed(cfg, Apply(cfg, s, moves[0]), moves[1..], t, i); }
  }

  lemma {:induction false} OverlapSharesEpoch(cfg: Config, s: State, moves: seq<Move>, t: State, i: nat, j: nat)
    requires cfg.floor <= cfg.ceiling && Runs(cfg, s, moves, t) && Overlapped(cfg, s, moves, i, j)
    ensures i < |t.permits| && j < |t.permits| && t.permits[i].epoch == t.permits[j].epoch
    decreases |moves|
  {
    if PassesBeside(s, moves[0], i, j) || PassesBeside(s, moves[0], j, i) {
      EpochsFixed(cfg, s, moves, t, i);
      EpochsFixed(cfg, s, moves, t, j);
    } else {
      OverlapSharesEpoch(cfg, Apply(cfg, s, moves[0]), moves[1..], t, i, j);
    }
  }

  /** Exactly when an epoch lowers the limit twice: of the two failures, one passed its check while the other
      was past its own check and had not bumped the epoch. */
  lemma SharedEpochIffOverlapped(cfg: Config, initial: nat, moves: seq<Move>, t: State, a: nat, b: nat)
    requires cfg.floor <= initial <= cfg.ceiling && Runs(cfg, Start(initial), moves, t)
    requires a < b < |t.applied|
    requires t.applied[a].who < |t.permits| && t.applied[b].who < |t.permits|
    requires Decrease(t, a) && Decrease(t, b)
    ensures t.permits[t.applied[a].who].epoch == t.permits[t.applied[b].who].epoch
       <==> Overlapped(cfg, Start(initial), moves, t.applied[a].who, t.applied[b].who)
  {
    var i, j := t.applied[a].who, t.applied[b].who;
    RunKeeps(cfg, initial, Start(initial), moves, t);
    assert Decreased(t, i) && Decreased(t, j);
    ApartUnlessOverlapped(cfg, initial, Start(initial), moves, t, i, j);
    if Overlapped(cfg, Start(initial), moves, i, j) { OverlapSharesEpoch(cfg, Start(initial), moves, t, i, j); }
  }

  /** Settles do not overlap: no failure passes its epoch check while another one is past it. */
  ghost predicate SoloRuns(cfg: Config, s: State, moves: seq<Move>, t: State)
    requires cfg.floor <= cfg.ceiling
    decreases |moves|
  {
    if moves == [] then s == t
    else
      && Enabled(cfg, s, moves[0])
      && (moves[0].CheckEpoch? && s.permits[moves[0].who].outcome == Failure ==>
            forall i | 0 <= i < |s.permits| :: !Committed(s.permits[i]))
      && SoloRuns(cfg, Apply(cfg, s, moves[0]), moves[1..], t)
  }

  lemma {:induction false} SoloNeverOverlaps(cfg: Config, s: State, moves: seq<Move>, t: State, i: nat, j: nat)
    requires cfg.floor <= cfg.ceiling && SoloRuns(cfg, s, moves, t)
    ensures Runs(cfg, s, moves, t) && !Overlapped(cfg, s, moves, i, j)
    decreases |moves|
  {
    if moves != [] { SoloNeverOverlaps(cfg, Apply(cfg, s, moves[0]), moves[1..], t, i, j); }
  }

  /** When settles do not overlap, each admission epoch lowers the limit at most once however many of
      its requests fail. */
  lemma OneDecreasePerEpoch(cfg: Config, initial: nat, moves: seq<Move>, t: State, a: nat, b: nat)
    requires cfg.floor <= initial <= cfg.ceiling && SoloRuns(cfg, Start(initial), moves, t)
    requires a < b < |t.applied|
    requires t.applied[a].who < |t.permits| && t.applied[b].who < |t.permits|
    requires Decrease(t, a) && Decrease(t, b)
    ensures t.permits[t.applied[a].who].epoch != t.permits[t.applied[b].who].epoch
  {
    SoloNeverOverlaps(cfg, Start(initial), moves, t, t.applied[a].who, t.applied[b].who);
    SharedEpochIffOverlapped(cfg, initial, moves, t, a, b);
  }

  // --- When a second decrease is still possible ----------------------------------------------------

  /** The strategy would lower the limit for `i`, if `i` has not done so yet, and then for `j`. */
  predicate LowersTwice(cfg: Config, s: State, i: nat, j: nat)
    requires cfg.floor <= cfg.ceiling && i < |s.permits| && j < |s.permits|
  {
    var first := if WasApplied(s.permits[i]) then s.limit else Target(cfg, s, i);
    && (!WasApplied(s.permits[i]) ==> first < s.limit)
    && Proposed(cfg, first, s.permits[j].inFlight, Failure) < first
  }

  ghost predicate CanBothDecrease(cfg: Config, s: State, i: nat, j: nat)
    requires cfg.floor <= cfg.ceiling
  {
    exists moves: seq<Move>, t: State :: Runs(cfg, s, moves, t) && Decreased(t, i) && Decreased(t, j)
  }

  /** A failure whose epoch has passed before its check never lowers the limit. */
  predicate TooLate(s: State, j: nat) {
    j < |s.permits| && (s.permits[j].phase == Skipped ||
                        (s.permits[j].phase == Started && s.permits[j].outcome == Failure && s.permits[j].epoch < s.epoch))
  }

  lemma TooLateStep(cfg: Config, s: State, m: Move, j: nat)
    requires cfg.floor <= cfg.ceiling && Enabled(cfg, s, m) && TooLate(s, j)
    ensures TooLate(Apply(cfg, s, m), j)
  {
  }

  lemma {:induction false} TooLateForGood(cfg: Config, s: State, moves: seq<Move>, t: State, j: nat)
    requires cfg.floor <= cfg.ceiling && Runs(cfg, s, moves, t) && TooLate(s, j)
    ensures !Decreased(t, j)
    decreases |moves|
  {
    if moves != [] {
      TooLateStep(cfg, s, moves[0], j);
      TooLateForGood(cfg, Apply(cfg, s, moves[0]), moves[1..], t, j);
    }
  }

  /** The limit stored and reported for `i`, the epoch not bumped yet. */
  function Stored(cfg: Config, s: State, i: nat): State
    requires cfg.floor <= cfg.ceiling && i < |s.permits|
  {
    Put(s, i, Lowered(|s.applied|)).(limit := Target(cfg, s, i), applied := Log(cfg, s, i))
  }

  /** Load and store. */
  lemma Lower(cfg: Config, s: State, i: nat)
    requires cfg.floor <= cfg.ceiling && i < |s.permits|
    requires s.permits[i].outcome == Failure && (s.permits[i].phase == Checked || s.permits[i].phase.Trying?)
    requires Target(cfg, s, i) < s.limit
    ensures Runs(cfg, s, [Load(i), Swap(i)], Stored(cfg, s, i)) && Decreased(Stored(cfg, s, i), i)
  {
    var u := Put(s, i, Trying(s.limit));
    assert Apply(cfg, s, Load(i)) == u && Target(cfg, u, i) == Target(cfg, s, i);
    assert u.permits[i := u.permits[i].(phase := Lowered(|s.applied|))] == Stored(cfg, s, i).permits;
    assert Apply(cfg, u, Swap(i)) == Stored(cfg, s, i);
    Prepend(cfg, u, Swap(i), [], Stored(cfg, s, i));
    Prepend(cfg, s, Load(i), [Swap(i)], Stored(cfg, s, i));
  }

  /** A failure of the current epoch passes its check and lowers the limit, whoever else is under way. */
  lemma PassAndLower(cfg: Config, s: State, j: nat) returns (t: State)
    requires cfg.floor <= cfg.ceiling && j < |s.permits|
    requires s.permits[j].outcome == Failure && s.permits[j].phase == Started && s.permits[j].epoch == s.epoch
    requires Proposed(cfg, s.limit, s.permits[j].inFlight, Failure) < s.limit
    ensures Runs(cfg, s, [CheckEpoch(j), Load(j), Swap(j)], t)
    ensures t == Stored(cfg, Put(s, j, Checked), j) && Decreased(t, j)
  {
    var u := Put(s, j, Checked);
    assert Apply(cfg, s, CheckEpoch(j)) == u;
    Lower(cfg, u, j);
    t := Stored(cfg, u, j);
    Prepend(cfg, s, CheckEpoch(j), [Load(j), Swap(j)], t);
  }

  lemma StillDecreased(cfg: Config, s: State, i: nat, j: nat)
    requires cfg.floor <= cfg.ceiling && i != j && j < |s.permits| && Decreased(s, i)
    ensures Decreased(Stored(cfg, Put(s, j, Checked), j), i)
  {
    assert Log(cfg, Put(s, j, Checked), j)[s.permits[i].phase.at] == s.applied[s.permits[i].phase.at];
  }

  lemma BothLower(cfg: Config, s: State, i: nat, j: nat) returns (moves: seq<Move>, t: State)
    requires cfg.floor <= cfg.ceiling && i != j && j < |s.permits|
    requires PastCheck(s, i) && s.permits[j].outcome == Failure && s.permits[j].phase == Started
    requires LowersTwice(cfg, s, i, j) && s.permits[j].epoch == s.epoch
    requires WasApplied(s.permits[i]) ==> Decreased(s, i)
    ensures Runs(cfg, s, moves, t) && Decreased(t, i) && Decreased(t, j)
  {
    moves := [CheckEpoch(j), Load(j), Swap(j)];
    if WasApplied(s.permits[i]) {
      t := PassAndLower(cfg, s, j);
      StillDecreased(cfg, s, i, j);
    } else {
      var u := Stored(cfg, s, i);
      Lower(cfg, s, i);
      t := PassAndLower(cfg, u, j);
      StillDecreased(cfg, u, i, j);
      Join(cfg, s, [Load(i), Swap(i)], u, moves, t);
      moves := [Load(i), Swap(i)] + moves;
    }
  }

  /** Of two failures of one epoch, the first past its check and the second about to check: with a strategy
      that lowers the limit for both, both can lower it if and only if the second finds the epoch it was
      admitted in, and then the first has not bumped it yet. */
  lemma SecondDecreaseIffEpochStands(cfg: Config, initial: nat, before: seq<Move>, s: State, i: nat, j: nat)
    requires cfg.floor <= initial <= cfg.ceiling && Runs(cfg, Start(initial), before, s)
    requires i != j && j < |s.permits| && PastCheck(s, i) && s.permits[i].epoch == s.permits[j].epoch
    requires s.permits[j].outcome == Failure && s.permits[j].phase == Started && LowersTwice(cfg, s, i, j)
    ensures CanBothDecrease(cfg, s, i, j) <==> s.permits[j].epoch == s.epoch
    ensures s.permits[j].epoch == s.epoch ==> Committed(s.permits[i])
  {
    RunKeeps(cfg, initial, Start(initial), before, s);
    RunKnowsEpochs(cfg, initial, Start(initial), before, s);
    if s.permits[j].epoch == s.epoch {
      var moves, t := BothLower(cfg, s, i, j);
    } else {
      forall moves: seq<Move>, t: State | Runs(cfg, s, moves, t) ensures !Decreased(t, j) {
        TooLateForGood(cfg, s, moves, t, j);
      }
    }
  }

  lemma {:induction false} RunKnowsEpochs(cfg: Config, initial: nat, s: State, moves: seq<Move>, t: State)
    requires cfg.floor <= cfg.ceiling && Inv(cfg, initial, s) && EpochsKnown(s) && Runs(cfg, s, moves, t)
    ensures EpochsKnown(t)
    decreases |moves|
  {
    if moves != [] {
      StepKeeps(cfg, initial, s, moves[0]);
      EpochsStep(cfg, initial, s, moves[0]);
      RunKnowsEpochs(cfg, initial, Apply(cfg, s, moves[0]), moves[1..], t);
    }
  }

  /** Two requests admitted together: the first failure has lowered the limit and not bumped the epoch when
      the second one passes its check. */
  function TwoFailures(inFlight: nat): seq<Move> {
    [Admit, Admit, Settle(0, Failure, inFlight), Settle(1, Failure, inFlight), CheckEpoch(0)]
  }

  lemma TwoFailuresRun(cfg: Config, initial: nat, inFlight: nat) returns (s: State)
    requires cfg.floor <= initial <= cfg.ceiling
    ensures Runs(cfg, Start(initial), TwoFailures(inFlight), s)
    ensures s == State(initial, 0, [Permit(0, Failure, inFlight, Checked), Permit(0, Failure, inFlight, Started)], [])
  {
    var s1 := Apply(cfg, Start(initial), Admit);
    var s2 := Apply(cfg, s1, Admit);
    var s3 := Apply(cfg, s2, Settle(0, Failure, inFlight));
    var s4 := Apply(cfg, s3, Settle(1, Failure, inFlight));
    s := Apply(cfg, s4, CheckEpoch(0));
    Prepend(cfg, s4, CheckEpoch(0), [], s);
    Prepend(cfg, s3, Settle(1, Failure, inFlight), [CheckEpoch(0)], s);
    Prepend(cfg, s2, Settle(0, Failure, inFlight), [Settle(1, Failure, inFlight), CheckEpoch(0)], s);
    Prepend(cfg, s1, Admit, [Settle(0, Failure, inFlight), Settle(1, Failure, inFlight), CheckEpoch(0)], s);
    Prepend(cfg, Start(initial), Admit, [Admit, Settle(0, Failure, inFlight), Settle(1, Failure, inFlight), CheckEpoch(0)], s);
  }

  /** From the very start, a strategy that lowers the limit twice lets one epoch lower it twice. */
  lemma OverlapDecreasesTwice(cfg: Config, initial: nat, inFlight: nat) returns (moves: seq<Move>, t: State)
    requires cfg.floor <= initial <= cfg.ceiling
    requires var next := Proposed(cfg, initial, inFlight, Failure);
             next < initial && Proposed(cfg, next, inFlight, Failure) < next
    ensures Runs(cfg, Start(initial), moves, t)
    ensures Decreased(t, 0) && Decreased(t, 1) && t.permits[0].epoch == t.permits[1].epoch
  {
    var s := TwoFailuresRun(cfg, initial, inFlight);
    var rest;
    rest, t := BothLower(cfg, s, 0, 1);
    Join(cfg, Start(initial), TwoFailures(inFlight), s, rest, t);
    EpochsFixed(cfg, s, rest, t, 0);
    EpochsFixed(cfg, s, rest, t, 1);
    moves := TwoFailures(inFlight) + rest;
  }

  // --- Outcomes take effect ----------------------------------------------------------------------------

  /** Only failures of earlier epochs have been passed over, and an epoch ends only when a failure has lowered the
      limit. */
  ghost predicate OnlyStaleSkipped(s: State) {
    && (forall i | 0 <= i < |s.permits| && s.permits[i].phase == Skipped :: s.permits[i].outcome == Failure && s.permits[i].epoch < s.epoch)
    && (s.epoch > 0 ==> exists k :: Decreased(s, k))
  }

  lemma StaleStep(cfg: Config, initial: nat, s: State, m: Move)
    requires cfg.floor <= cfg.ceiling && Inv(cfg, initial, s) && EpochsKnown(s) && OnlyStaleSkipped(s) && Enabled(cfg, s, m)
    ensures OnlyStaleSkipped(Apply(cfg, s, m))
  {
    var t := Apply(cfg, s, m);
    if m.Bump? {
      DecreasedBefore(cfg, initial, s, m, m.who);
    } else if k :| Decreased(s, k) {
      DecreasedBefore(cfg, initial, s, m, k);
    }
  }

  lemma {:induction false} RunSkipsStale(cfg: Config, initial: nat, s: State, moves: seq<Move>, t: State)
    requires cfg.floor <= cfg.ceiling && Inv(cfg, initial, s) && EpochsKnown(s) && OnlyStaleSkipped(s) && Runs(cfg, s, moves, t)
    ensures OnlyStaleSkipped(t)
    decreases |moves|
  {
    hide OnlyStaleSkipped, EpochsKnown;
    if moves != [] {
      StaleStep(cfg, initial, s, moves[0]);
      StepKeeps(cfg, initial, s, moves[0]);
      EpochsStep(cfg, initial, s, moves[0]);
      RunSkipsStale(cfg, initial, Apply(cfg, s, moves[0]), moves[1..], t);
    }
  }

  /** The failures that have lowered the limit and ended an epoch. */
  function Enders(s: State): set<nat> {
    set i | 0 <= i < |s.permits| && Decreased(s, i) && s.permits[i].phase.Applied?
  }

  lemma EndersStep(cfg: Config, initial: nat, s: State, m: Move)
    requires cfg.floor <= cfg.ceiling && Inv(cfg, initial, s) && EpochsKnown(s) && Enabled(cfg, s, m)
    ensures Enders(Apply(cfg, s, m)) == Enders(s) + if m.Bump? then {m.who} else {}
    ensures m.Bump? ==> m.who !in Enders(s)
  {
    var t := Apply(cfg, s, m);
    forall i | 0 <= i < |s.permits| ensures i in Enders(t) <==> i in Enders(s) || m == Bump(i) {
      DecreasedBefore(cfg, initial, s, m, i);
    }
  }

  /** Over every run, the epoch is the number of decreases that ended one. */
  lemma {:induction false} EpochCountsDecreases(cfg: Config, initial: nat, s: State, moves: seq<Move>, t: State)
    requires cfg.floor <= cfg.ceiling && Inv(cfg, initial, s) && EpochsKnown(s) && Runs(cfg, s, moves, t)
    ensures t.epoch - |Enders(t)| == s.epoch - |Enders(s)|
    decreases |moves|
  {
    hide Inv, EpochsKnown, Enders;
    if moves != [] {
      EndersStep(cfg, initial, s, moves[0]);
      StepKeeps(cfg, initial, s, moves[0]);
      EpochsStep(cfg, initial, s, moves[0]);
      EpochCountsDecreases(cfg, initial, Apply(cfg, s, moves[0]), moves[1..], t);
    }
  }

  /** Over every run, an outcome that was passed over is a failure admitted before the current epoch, which some
      failure ended by lowering the limit. */
  lemma SkippedOnlyIfStale(cfg: Config, initial: nat, moves: seq<Move>, t: State, i: nat)
    requires cfg.floor <= initial <= cfg.ceiling && Runs(cfg, Start(initial), moves, t)
    requires i < |t.permits| && t.permits[i].phase == Skipped
    ensures t.permits[i].outcome == Failure && t.permits[i].epoch < t.epoch == |Enders(t)| && exists k :: Decreased(t, k)
  {
    EpochCountsDecreases(cfg, initial, Start(initial), moves, t);
    RunSkipsStale(cfg, initial, Start(initial), moves, t);
  }

  /** From every state: any outcome that is not a stale failure, settled with nobody interfering, makes the limit what
      the strategy asks for, and is reported. */
  lemma SettlesAlone(cfg: Config, s: State, i: nat, outcome: Outcome, inFlight: nat) returns (moves: seq<Move>, t: State)
    requires cfg.floor <= cfg.ceiling && i < |s.permits| && s.permits[i].phase == Held
    requires outcome == Failure ==> s.permits[i].epoch >= s.epoch
    ensures Runs(cfg, s, moves, t) && t.limit == Proposed(cfg, s.limit, inFlight, outcome)
    ensures |t.permits| == |s.permits| && WasApplied(t.permits[i]) && t.permits[i].outcome == outcome
    ensures t.applied == s.applied + [Report(i, s.limit, t.limit)]
  {
    hide Proposed;
    var u := Apply(cfg, s, Settle(i, outcome, inFlight));
    var v := Apply(cfg, u, CheckEpoch(i));
    var w := Apply(cfg, v, Load(i));
    moves := [Settle(i, outcome, inFlight)] + ([CheckEpoch(i)] + ([Load(i)] + []));
    if w.permits[i].phase.Trying? {
      t := Apply(cfg, w, Swap(i));
      Prepend(cfg, w, Swap(i), [], t);
      Prepend(cfg, v, Load(i), [Swap(i)] + [], t);
      Prepend(cfg, u, CheckEpoch(i), [Load(i)] + ([Swap(i)] + []), t);
      Prepend(cfg, s, Settle(i, outcome, inFlight), [CheckEpoch(i)] + ([Load(i)] + ([Swap(i)] + [])), t);
      moves := [Settle(i, outcome, inFlight)] + ([CheckEpoch(i)] + ([Load(i)] + ([Swap(i)] + [])));
    } else {
      t := w;
      Prepend(cfg, v, Load(i), [], t);
      Prepend(cfg, u, CheckEpoch(i), [Load(i)] + [], t);
      Prepend(cfg, s, Settle(i, outcome, inFlight), [CheckEpoch(i)] + ([Load(i)] + []), t);
    }
  }

  lemma Prepend(cfg: Config, s: State, m: Move, rest: seq<Move>, t: State)
    requires cfg.floor <= cfg.ceiling && Enabled(cfg, s, m) && Runs(cfg, Apply(cfg, s, m), rest, t)
    ensures Runs(cfg, s, [m] + rest, t)
  {
    assert ([m] + rest)[1..] == rest;
  }

  lemma {:induction false} Join(cfg: Config, s: State, first: seq<Move>, u: State, second: seq<Move>, t: State)
    requires cfg.floor <= cfg.ceiling && Runs(cfg, s, first, u) && Runs(cfg, u, second, t)
    ensures Runs(cfg, s, first + second, t)
    decreases |first|
  {
    if first == [] {
      assert first + second == second;
    } else {
      Join(cfg, Apply(cfg, s, first[0]), first[1..], u, second, t);
      assert (first + second)[1..] == first[1..] + second;
    }
  }
}

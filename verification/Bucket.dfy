/** A token bucket by its contract. The bucket itself lives in another crate; what the store relies on is
    that a bucket is known by the instant it will be full, that taking tokens moves that instant on, and
    that an emptier bucket never grants what a fuller one refuses.

    Everything is scaled to stay in integers: instants by the refill amount, tokens by the refill
    period. */
module Bucket {
  import opened Common

  datatype Config = Config(capacity: nat, amount: nat, period: nat, initial: nat) {
    predicate Valid() {
      capacity > 0 && amount > 0 && period > 0 && initial <= capacity
    }
  }

  /** `full`: the instant the bucket is full again, times the refill amount. */
  datatype Bucket = Bucket(full: int)

  function Level(cfg: Config, now: nat): nat {
    now * cfg.amount
  }

  function Cost(cfg: Config, tokens: nat): nat {
    tokens * cfg.period
  }

  function Deficit(cfg: Config, b: Bucket, now: nat): nat {
    Max(0, b.full - Level(cfg, now))
  }

  /** Whole tokens there now. */
  function Available(cfg: Config, b: Bucket, now: nat): nat
    requires cfg.Valid()
  {
    Monus(Cost(cfg, cfg.capacity), Deficit(cfg, b, now)) / cfg.period
  }

  /** A bucket from which `tokens` are missing at `now`. */
  function Owing(cfg: Config, now: nat, tokens: nat): Bucket {
    Bucket(Level(cfg, now) + Cost(cfg, tokens))
  }

  function Fresh(cfg: Config, now: nat): Bucket
    requires cfg.Valid()
  {
    Owing(cfg, now, cfg.capacity - cfg.initial)
  }

  /** `tokens` more are gone, there or not. */
  function Drawn(cfg: Config, b: Bucket, tokens: nat, now: nat): Bucket {
    Bucket(Max(b.full, Level(cfg, now)) + Cost(cfg, tokens))
  }

  /** Whether `tokens` are there now, or will have accrued within `maxWait` (`None`: however long). */
  predicate Grants(cfg: Config, b: Bucket, tokens: nat, maxWait: Option<nat>, now: nat) {
    && tokens <= cfg.capacity
    && (maxWait.Some? ==>
          Deficit(cfg, b, now) + Cost(cfg, tokens) <= Cost(cfg, cfg.capacity) + Level(cfg, maxWait.value))
  }

  /** An acquire (`maxWait` zero) or a reservation: all or nothing. */
  function Take(cfg: Config, b: Bucket, tokens: nat, maxWait: Option<nat>, now: nat): (bool, Bucket) {
    if Grants(cfg, b, tokens, maxWait, now) then (true, Drawn(cfg, b, tokens, now)) else (false, b)
  }

  function TakeUpTo(cfg: Config, b: Bucket, tokens: nat, now: nat): Bucket
    requires cfg.Valid()
  {
    Drawn(cfg, b, Min(tokens, Available(cfg, b, now)), now)
  }

  function Refund(cfg: Config, b: Bucket, tokens: nat): Bucket {
    Bucket(b.full - Cost(cfg, tokens))
  }

  predicate Lossless(cfg: Config, b: Bucket, now: nat)
    requires cfg.Valid()
  {
    Available(cfg, b, now) >= cfg.capacity
  }

  /** The least wait, in whole nanoseconds, after which the capacity is available. The crate rounds up and may
      answer more. */
  function TimeUntilFull(cfg: Config, b: Bucket, now: nat): (wait: nat)
    requires cfg.Valid()
    ensures Level(cfg, now + wait) >= b.full
    ensures now + wait == Max(now, FirstFull(cfg, b))
  {
    var d := Deficit(cfg, b, now);
    RoundUp(d, cfg.amount);
    var wait := CeilDiv(d, cfg.amount);
    assert Level(cfg, now + wait) == Level(cfg, now) + wait * cfg.amount;
    WaitIsLeast(cfg, b, now, wait);
    wait
  }

  /** The first whole nanosecond at which the bucket is full. */
  function FirstFull(cfg: Config, b: Bucket): nat
    requires cfg.Valid()
  {
    CeilDiv(Max(0, b.full), cfg.amount)
  }

  /** From then on it is full, and not before. */
  lemma FirstFullIsFirst(cfg: Config, b: Bucket, t: nat)
    requires cfg.Valid()
    ensures b.full <= Level(cfg, t) <==> FirstFull(cfg, b) <= t
  {
    var first := FirstFull(cfg, b);
    RoundUp(Max(0, b.full), cfg.amount);
    if first <= t {
      MulMonotone(first, t, cfg.amount);
    } else {
      MulMonotone(t + 1, first, cfg.amount);
      assert (t + 1) * cfg.amount == t * cfg.amount + cfg.amount;
    }
  }

  lemma WaitIsLeast(cfg: Config, b: Bucket, now: nat, wait: nat)
    requires cfg.Valid() && wait == CeilDiv(Deficit(cfg, b, now), cfg.amount)
    requires Level(cfg, now + wait) == Level(cfg, now) + wait * cfg.amount
    ensures now + wait == Max(now, FirstFull(cfg, b))
  {
    var d := Deficit(cfg, b, now);
    RoundUp(d, cfg.amount);
    FirstFullIsFirst(cfg, b, now + wait);
    FirstFullIsFirst(cfg, b, now);
    if wait > 0 {
      FirstFullIsFirst(cfg, b, now + wait - 1);
      assert Level(cfg, now + wait - 1) == Level(cfg, now + wait) - cfg.amount;
      if d == 0 { DivBelow(cfg.amount - 1, 1, cfg.amount); }
    }
  }

  /** The reported wait is exact: at every later instant the bucket has recovered if and only if the wait is over. */
  lemma RecoversExactly(cfg: Config, b: Bucket, now: nat, t: nat)
    requires cfg.Valid() && now <= t
    ensures Lossless(cfg, b, t) <==> now + TimeUntilFull(cfg, b, now) <= t
  {
    LosslessIsFull(cfg, b, t);
    FirstFullIsFirst(cfg, b, t);
  }

  lemma LimitedRecovers(cfg: Config, b: Bucket, now: nat)
    requires cfg.Valid() && !Lossless(cfg, b, now)
    ensures now + TimeUntilFull(cfg, b, now) == FirstFull(cfg, b) > now
  {
    LosslessIsFull(cfg, b, now);
    FirstFullIsFirst(cfg, b, now);
  }

  /** At most a nanosecond's refill more than what is missing is written down. */
  lemma FirstFullAtMost(cfg: Config, b: Bucket)
    requires cfg.Valid() && b.full >= 0
    ensures b.full <= Level(cfg, FirstFull(cfg, b)) < b.full + cfg.amount
  {
    RoundUp(b.full, cfg.amount);
  }

  // --- Arithmetic -------------------------------------------------------------------------------------

  function CeilDiv(a: nat, b: nat): nat
    requires b > 0
  {
    (a + b - 1) / b
  }

  lemma RoundUp(a: nat, b: nat)
    requires b > 0
    ensures a <= CeilDiv(a, b) * b < a + b
  {
    var x := a + b - 1;
    assert x == b * (x / b) + x % b;
  }

  lemma CostAdds(cfg: Config, a: nat, b: nat)
    ensures Cost(cfg, a) + Cost(cfg, b) == Cost(cfg, a + b)
  {
  }

  lemma LevelMonotone(cfg: Config, now: nat, later: nat)
    requires now <= later
    ensures Level(cfg, now) <= Level(cfg, later)
  {
  }

  lemma MulAtLeast(d: int, p: int)
    requires p > 0
    ensures d >= 1 ==> d * p >= p
    ensures d <= -1 ==> d * p <= -p
  {
    assert (d - 1) * p == d * p - p && (d + 1) * p == d * p + p;
  }

  lemma DivExact(n: nat, p: nat)
    requires p > 0
    ensures (n * p) / p == n
  {
    var q := (n * p) / p;
    assert n * p == p * q + (n * p) % p;
    assert (n - q) * p == n * p - q * p;
    MulAtLeast(n - q, p);
  }

  lemma DivBelow(x: nat, n: nat, p: nat)
    requires p > 0 && x < n * p
    ensures x / p < n
  {
    assert x == p * (x / p) + x % p;
    var q := x / p;
    if q >= n { MulMonotone(n, q, p); }
  }

  lemma MulMonotone(a: nat, b: nat, c: nat)
    requires a <= b
    ensures a * c <= b * c
  {
  }

  /** A bucket is lossless exactly when it is full. */
  lemma LosslessIsFull(cfg: Config, b: Bucket, now: nat)
    requires cfg.Valid()
    ensures Lossless(cfg, b, now) <==> b.full <= Level(cfg, now)
  {
    DivExact(cfg.capacity, cfg.period);
    if b.full > Level(cfg, now) {
      assert Cost(cfg, cfg.capacity) > 0;
      DivBelow(Monus(Cost(cfg, cfg.capacity), Deficit(cfg, b, now)), cfg.capacity, cfg.period);
    }
  }

  // --- An emptier bucket is safe ---------------------------------------------------------------------

  /** At `now` and from then on, `strict` is no fuller than `loose`. */
  predicate Covers(cfg: Config, strict: Bucket, loose: Bucket, now: nat) {
    loose.full <= Max(strict.full, Level(cfg, now))
  }

  /** Tokens are granted exactly when that many whole ones are there by the end of the wait allowed, and are then
      missing from the bucket. */
  lemma GrantsIffThere(cfg: Config, b: Bucket, tokens: nat, wait: nat, now: nat)
    requires cfg.Valid() && 0 < tokens <= cfg.capacity
    ensures var (granted, after) := Take(cfg, b, tokens, Some(wait), now);
            && (granted <==> tokens <= Available(cfg, b, now + wait))
            && Deficit(cfg, after, now) == Deficit(cfg, b, now) + if granted then Cost(cfg, tokens) else 0
  {
    var room := Monus(Cost(cfg, cfg.capacity), Deficit(cfg, b, now + wait));
    assert Level(cfg, now + wait) == Level(cfg, now) + Level(cfg, wait);
    AtLeastWhole(room, tokens, cfg.period);
    MulMonotone(1, tokens, cfg.period);
    MulMonotone(tokens, cfg.capacity, cfg.period);
  }

  /** A period brings the refill amount, until the bucket is full. */
  lemma RefillRate(cfg: Config, b: Bucket, now: nat)
    requires cfg.Valid()
    ensures Deficit(cfg, b, now + cfg.period) == Monus(Deficit(cfg, b, now), Cost(cfg, cfg.amount))
  {
    assert (now + cfg.period) * cfg.amount == now * cfg.amount + cfg.amount * cfg.period;
  }

  /** Refunded tokens are no longer missing; what was taken and refunded at one instant is as though it had not been
      taken. */
  lemma RefundReturns(cfg: Config, b: Bucket, tokens: nat, now: nat)
    requires cfg.Valid()
    ensures Deficit(cfg, Refund(cfg, b, tokens), now) == Monus(Deficit(cfg, b, now), Cost(cfg, tokens))
    ensures Deficit(cfg, Refund(cfg, Drawn(cfg, b, tokens, now), tokens), now) == Deficit(cfg, b, now)
  {
    hide Level, Cost;
  }

  /** So many whole ones fit exactly when their whole size does. */
  lemma AtLeastWhole(x: nat, n: nat, p: nat)
    requires p > 0
    ensures n <= x / p <==> n * p <= x
  {
    var q := x / p;
    assert x == p * q + x % p;
    assert (n - q) * p == n * p - p * q;
    MulAtLeast(n - q, p);
  }

  /** Whatever the emptier bucket grants, the fuller one grants too, and stays the fuller one. */
  lemma CoversTake(cfg: Config, strict: Bucket, loose: Bucket, tokens: nat, maxWait: Option<nat>, now: nat)
    requires Covers(cfg, strict, loose, now) && Grants(cfg, strict, tokens, maxWait, now)
    ensures Grants(cfg, loose, tokens, maxWait, now)
    ensures Covers(cfg, Drawn(cfg, strict, tokens, now), Drawn(cfg, loose, tokens, now), now)
  {
  }

  lemma CoversRefund(cfg: Config, strict: Bucket, loose: Bucket, tokens: nat, now: nat)
    requires Covers(cfg, strict, loose, now)
    ensures Covers(cfg, Refund(cfg, strict, tokens), Refund(cfg, loose, tokens), now)
  {
  }

  // --- Debts -------------------------------------------------------------------------------------------

  /** Whole tokens missing at `now` from a bucket that will be full at `settlesAt`, rounded up. */
  function Missing(cfg: Config, now: nat, settlesAt: nat): nat
    requires cfg.Valid()
  {
    CeilDiv(Level(cfg, Monus(settlesAt, now)), cfg.period)
  }

  /** A fresh bucket put into the debt a forgotten one left. */
  function Restored(cfg: Config, now: nat, settlesAt: nat): Bucket
    requires cfg.Valid()
  {
    Owing(cfg, now, Max(Missing(cfg, now, settlesAt), cfg.capacity - cfg.initial))
  }

  lemma DrawnOwes(cfg: Config, now: nat, owed: nat, tokens: nat)
    ensures Drawn(cfg, Owing(cfg, now, owed), tokens, now) == Owing(cfg, now, owed + tokens)
  {
    CostAdds(cfg, owed, tokens);
  }

  /** Drains a fresh bucket down to `keep` tokens. */
  method DrainFresh(cfg: Config, now: nat, keep: nat) returns (b: Bucket)
    requires cfg.Valid() && keep <= cfg.capacity
    ensures b == Owing(cfg, now, Max(cfg.capacity - keep, cfg.capacity - cfg.initial))
  {
    b := Fresh(cfg, now);
    FreshAvailable(cfg, now);
    var available := Available(cfg, b, now);
    if available > keep {
      DrawnOwes(cfg, now, cfg.capacity - cfg.initial, available - keep);
      b := TakeUpTo(cfg, b, available - keep, now);
    }
  }

  /** Reserves `debt` more tokens in capacity-sized chunks. */
  method ReserveChunks(cfg: Config, start: Bucket, now: nat, debt: nat, ghost owed: nat) returns (b: Bucket)
    requires cfg.Valid() && start == Owing(cfg, now, owed)
    ensures b == Owing(cfg, now, owed + debt)
  {
    b := start;
    var left: nat := debt;
    while left > 0
      invariant left <= debt && b == Owing(cfg, now, owed + (debt - left))
    {
      var chunk := if left <= cfg.capacity then left else cfg.capacity;
      DrawnOwes(cfg, now, owed + (debt - left), chunk);
      // Within capacity and however long the wait, a reservation is never refused.
      assert Grants(cfg, b, chunk, None, now);
      b, left := Take(cfg, b, chunk, None, now).1, left - chunk;
    }
  }

  /** `restore_debt`: drain what is there down to what should be left, then reserve what is owed beyond
      empty. */
  method RestoreDebt(cfg: Config, now: nat, settlesAt: nat) returns (b: Bucket)
    requires cfg.Valid()
    ensures b == Restored(cfg, now, settlesAt)
  {
    var remaining := Monus(settlesAt, now);
    if remaining == 0 {
      NothingMissing(cfg, now, settlesAt);
      return Fresh(cfg, now);
    }
    var missing := CeilDiv(Level(cfg, remaining), cfg.period);
    b := DrainFresh(cfg, now, Monus(cfg.capacity, missing));
    b := ReserveChunks(cfg, b, now, Monus(missing, cfg.capacity),
                       Max(Min(missing, cfg.capacity), cfg.capacity - cfg.initial));
  }

  lemma NothingMissing(cfg: Config, now: nat, settlesAt: nat)
    requires cfg.Valid() && settlesAt <= now
    ensures Missing(cfg, now, settlesAt) == 0
  {
    assert Level(cfg, 0) == 0;
    DivBelow(cfg.period - 1, 1, cfg.period);
  }

  lemma FreshAvailable(cfg: Config, now: nat)
    requires cfg.Valid()
    ensures Available(cfg, Fresh(cfg, now), now) == cfg.initial
  {
    CostAdds(cfg, cfg.capacity - cfg.initial, cfg.initial);
    DivExact(cfg.initial, cfg.period);
  }

  /** Evict and restore: the restored bucket is no fuller than the forgotten one would be now, and as empty as a
      fresh one, or no emptier than one token beyond the recorded settle time. */
  lemma RestoredRoundTrip(cfg: Config, forgotten: Bucket, now: nat, settlesAt: nat)
    requires cfg.Valid() && forgotten.full <= Level(cfg, settlesAt)
    ensures Covers(cfg, Restored(cfg, now, settlesAt), forgotten, now)
    ensures Restored(cfg, now, settlesAt) == Fresh(cfg, now)
            || Restored(cfg, now, settlesAt).full < Max(Level(cfg, settlesAt), Level(cfg, now)) + cfg.period
  {
    var remaining := Monus(settlesAt, now);
    RoundUp(Level(cfg, remaining), cfg.period);
    var owed := Max(Missing(cfg, now, settlesAt), cfg.capacity - cfg.initial);
    MulMonotone(Missing(cfg, now, settlesAt), owed, cfg.period);
    if settlesAt >= now {
      assert Level(cfg, settlesAt) == Level(cfg, now) + Level(cfg, remaining);
    } else {
      LevelMonotone(cfg, settlesAt, now);
    }
  }

  /** The settle time of a debt after part of it is paid: earlier by the nanoseconds those tokens take to
      accrue, rounded down. */
  function PaidDown(cfg: Config, settlesAt: nat, tokens: nat): nat
    requires cfg.Valid()
  {
    Monus(settlesAt, Min((cfg.period / cfg.amount) * tokens, U64_MAX))
  }

  /** A refund taken off the ledger is never more generous than one given to the bucket. */
  lemma PaidDownCovers(cfg: Config, loose: Bucket, now: nat, settlesAt: nat, tokens: nat)
    requires cfg.Valid() && loose.full <= Max(Level(cfg, settlesAt), Level(cfg, now))
    ensures Refund(cfg, loose, tokens).full <= Max(Level(cfg, PaidDown(cfg, settlesAt, tokens)), Level(cfg, now))
  {
    var perToken := cfg.period / cfg.amount;
    assert cfg.period == cfg.amount * perToken + cfg.period % cfg.amount;
    var credit := Min(perToken * tokens, U64_MAX);
    CreditAtMostCost(cfg, perToken, tokens, credit);
    if settlesAt >= credit {
      assert Level(cfg, settlesAt - credit) == Level(cfg, settlesAt) - credit * cfg.amount;
    } else {
      LevelMonotone(cfg, settlesAt, credit);
    }
  }

  /** What a refund taken off a recorded debt falls short of one given to the bucket: the part of a nanosecond each
      token loses to rounding (and whatever is beyond the largest credit). */
  function Unpaid(cfg: Config, tokens: nat): nat
    requires cfg.Valid()
  {
    if (cfg.period / cfg.amount) * tokens <= U64_MAX then (cfg.period % cfg.amount) * tokens
    else Monus(Cost(cfg, tokens), Level(cfg, U64_MAX))
  }

  /** And it falls short by no more than that. */
  lemma PaidDownEnough(cfg: Config, settlesAt: nat, tokens: nat)
    requires cfg.Valid()
    ensures PaidDown(cfg, settlesAt, tokens) == 0
            || Level(cfg, PaidDown(cfg, settlesAt, tokens)) == Level(cfg, settlesAt) - Cost(cfg, tokens) + Unpaid(cfg, tokens)
    ensures Unpaid(cfg, tokens) <= Cost(cfg, tokens)
  {
    var perToken := cfg.period / cfg.amount;
    var credit := Min(perToken * tokens, U64_MAX);
    assert cfg.period == cfg.amount * perToken + cfg.period % cfg.amount;
    CreditAtMostCost(cfg, perToken, tokens, credit);
    PerTokenCost(cfg, perToken, tokens);
    if settlesAt > credit {
      assert Level(cfg, settlesAt - credit) == Level(cfg, settlesAt) - credit * cfg.amount;
    }
  }

  lemma PerTokenCost(cfg: Config, perToken: nat, tokens: nat)
    requires cfg.Valid() && cfg.period == cfg.amount * perToken + cfg.period % cfg.amount
    ensures Cost(cfg, tokens) == (perToken * tokens) * cfg.amount + (cfg.period % cfg.amount) * tokens
  {
    var r := cfg.period % cfg.amount;
    assert tokens * (cfg.amount * perToken + r) == tokens * (cfg.amount * perToken) + tokens * r;
    assert tokens * (cfg.amount * perToken) == (perToken * tokens) * cfg.amount;
  }

  lemma CreditAtMostCost(cfg: Config, perToken: nat, tokens: nat, credit: nat)
    requires perToken * cfg.amount <= cfg.period && credit <= perToken * tokens
    ensures credit * cfg.amount <= Cost(cfg, tokens)
  {
    MulMonotone(credit, perToken * tokens, cfg.amount);
    MulMonotone(perToken * cfg.amount, cfg.period, tokens);
    assert (perToken * tokens) * cfg.amount == (perToken * cfg.amount) * tokens;
  }

}

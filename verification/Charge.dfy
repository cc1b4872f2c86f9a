/** The default charge of units already spent: reserve in chunks the limiter can hold, and where it cannot
    reserve, drain what is there. The limiter's answers are arbitrary. */
module Charge {
  import opened Common

  /** What a limiter answers its n-th call. */
  datatype Answers = Answers(reserves: nat -> bool, available: nat -> nat, acquires: nat -> bool)

  class Limiter {
    const capacity: nat
    const answers: Answers
    var calls: nat
    /** Units taken so far. */
    var taken: nat

    constructor (capacity: nat, answers: Answers)
      ensures this.capacity == capacity && this.answers == answers && calls == 0 && taken == 0
    {
      this.capacity, this.answers, calls, taken := capacity, answers, 0, 0;
    }

    /** Reserves with no limit on the wait. */
    method Reserve(units: nat) returns (reserved: bool)
      requires units <= capacity
      modifies this
      ensures calls == old(calls) + 1 && reserved == answers.reserves(old(calls))
      ensures taken == old(taken) + if reserved then units else 0
    {
      reserved := answers.reserves(calls);
      calls := calls + 1;
      taken := taken + if reserved then units else 0;
    }

    method Acquire(units: nat) returns (acquired: bool)
      modifies this
      ensures calls == old(calls) + 1 && acquired == answers.acquires(old(calls))
      ensures taken == old(taken) + if acquired then units else 0
    {
      acquired := answers.acquires(calls);
      calls := calls + 1;
      taken := taken + if acquired then units else 0;
    }

    method Available() returns (units: nat)
      modifies this
      ensures calls == old(calls) + 1 && units == answers.available(old(calls)) && taken == old(taken)
    {
      units := answers.available(calls);
      calls := calls + 1;
    }

    /** Charges `cost` units already spent; `left` could not be charged, and exactly the others were taken. `chunks`
        reservations of the whole capacity succeeded before one was refused (`refused`), if one was; then, and only
        then, what is available is drained. */
    method Charge(cost: nat) returns (left: nat, ghost chunks: nat, ghost refused: bool)
      modifies this
      ensures left <= cost && taken == old(taken) + (cost - left)
      ensures capacity == 0 ==> left == cost && calls == old(calls) && !refused
      ensures forall n | old(calls) <= n < old(calls) + chunks :: answers.reserves(n)
      ensures capacity > 0 && !refused ==>
                && left == 0 && calls == old(calls) + chunks
                && chunks * capacity >= cost && (chunks > 0 ==> (chunks - 1) * capacity < cost)
      ensures refused ==>
                var at, short := old(calls) + chunks, cost - chunks * capacity;
                && capacity > 0 && !answers.reserves(at) && short > 0
                && var drain := Min(answers.available(at + 1), short);
                   left == short - if drain > 0 && answers.acquires(at + 2) then drain else 0
    {
      chunks, refused := 0, false;
      if capacity == 0 {
        return cost, 0, false;
      }
      left := cost;
      while left > 0
        invariant taken == old(taken) + (cost - left) && calls == old(calls) + chunks && !refused
        invariant left == Monus(cost, chunks * capacity) && (chunks > 0 ==> (chunks - 1) * capacity < cost)
        invariant forall n | old(calls) <= n < old(calls) + chunks :: answers.reserves(n)
        decreases left
      {
        assert (chunks + 1) * capacity == chunks * capacity + capacity;
        var chunk := Min(left, capacity);
        var reserved := Reserve(chunk);
        if !reserved {
          refused := true;
          var available := Available();
          var drain := Min(available, left);
          if drain > 0 {
            var acquired := Acquire(drain);
            if acquired {
              left := left - drain;
            }
          }
          return;
        }
        left, chunks := left - chunk, chunks + 1;
      }
    }
  }
}

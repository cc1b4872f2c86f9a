/** The debt ledger of a shard: what evicted keys still owe, by key hash. Entries sit densely in a
    sequence and are found through an index; the hash table is a finite map from what it is searched by
    to the position it stores. */
module Ledger {
  import opened Common
  import opened Bucket

  const LEDGER_SCAN: nat := 8

  /** What an evicted key still owes, as the instant from which it owes nothing. */
  datatype Debt = Debt(hash: nat, settlesAt: nat)

  function SwapRemove<T>(s: seq<T>, pos: nat): (r: seq<T>)
    requires pos < |s|
    ensures |r| == |s| - 1
  {
    if pos == |s| - 1 then s[..|s| - 1] else s[..|s| - 1][pos := s[|s| - 1]]
  }

  /** The `d`-th position a cursor visits from `cursor` in a ring of `len`. */
  function Visited(cursor: nat, len: nat, d: nat): nat
    requires d < len
    ensures Visited(cursor, len, d) < len
  {
    var start := if cursor >= len then 0 else cursor;
    if start + d < len then start + d else start + d - len
  }

  /** The index holds exactly the dense positions, each under its own hash. */
  predicate Indexes(index: map<nat, nat>, debts: seq<Debt>) {
    && (forall i | 0 <= i < |debts| :: debts[i].hash in index && index[debts[i].hash] == i)
    && (forall h <- index :: index[h] < |debts| && debts[index[h]].hash == h)
  }

  function OwedBy(index: map<nat, nat>, debts: seq<Debt>): map<nat, nat>
    requires Indexes(index, debts)
  {
    map h | h in index :: debts[index[h]].settlesAt
  }

  function Reindexed(index: map<nat, nat>, debts: seq<Debt>, pos: nat): map<nat, nat>
    requires pos < |debts|
  {
    var last := |debts| - 1;
    var fewer := index - {debts[pos].hash};
    if pos == last then fewer else fewer[debts[last].hash := pos]
  }

  lemma ReindexKeeps(debts: seq<Debt>, index: map<nat, nat>, pos: nat)
    requires Indexes(index, debts) && pos < |debts|
    ensures Indexes(Reindexed(index, debts, pos), SwapRemove(debts, pos))
    ensures OwedBy(Reindexed(index, debts, pos), SwapRemove(debts, pos)) == OwedBy(index, debts) - {debts[pos].hash}
  {
  }

  class DebtLedger {
    var index: map<nat, nat>
    var debts: seq<Debt>
    var cursor: nat

    constructor ()
      ensures Valid() && debts == [] && Owed() == map[]
    {
      index, debts, cursor := map[], [], 0;
    }

    predicate Valid()
      reads this
    {
      Indexes(index, debts)
    }

    /** What is owed, by hash. */
    function Owed(): map<nat, nat>
      requires Valid()
      reads this
    {
      OwedBy(index, debts)
    }

    lemma Size()
      requires Valid()
      ensures |Owed()| == |debts|
    {
      assert Owed().Keys == index.Keys;
      var positions := set i | 0 <= i < |debts| :: debts[i].hash;
      assert positions == index.Keys;
      HashesDistinct(|debts|);
    }

    lemma {:induction false} HashesDistinct(n: nat)
      requires Valid() && n <= |debts|
      ensures |set i | 0 <= i < n :: debts[i].hash| == n
    {
      if n > 0 {
        HashesDistinct(n - 1);
        var before := set i | 0 <= i < n - 1 :: debts[i].hash;
        assert (set i | 0 <= i < n :: debts[i].hash) == before + {debts[n - 1].hash};
        assert debts[n - 1].hash !in before;
      }
    }

    method Clear()
      modifies this
      ensures Valid() && debts == [] && Owed() == map[]
    {
      index, debts, cursor := map[], [], 0;
    }

    method Position(hash: nat) returns (pos: Option<nat>)
      requires Valid()
      ensures pos.Some? <==> hash in Owed()
      ensures pos.Some? ==> pos.value < |debts| && debts[pos.value] == Debt(hash, Owed()[hash])
    {
      pos := if hash in index then Some(index[hash]) else None;
    }

    /** Forgets one debt. The last one takes its place, so the index stays on the dense positions. */
    method RemoveAt(pos: nat)
      requires Valid() && pos < |debts|
      modifies this`index, this`debts
      ensures Valid()
      ensures debts == SwapRemove(old(debts), pos)
      ensures Owed() == old(Owed()) - {old(debts)[pos].hash}
    {
      ReindexKeeps(debts, index, pos);
      hide SwapRemove, Indexes;
      var last := |debts| - 1;
      var moved := index - {debts[pos].hash};
      if pos != last {
        moved := moved[debts[last].hash := pos];
      }
      index, debts := moved, SwapRemove(debts, pos);
    }

    /** Brings one debt's settle time forward by a payment of `tokens`; `known` says whether there was a debt. */
    method PayDown(cfg: Config, hash: nat, tokens: nat) returns (known: bool)
      requires Valid() && cfg.Valid()
      modifies this`debts
      ensures Valid() && |debts| == |old(debts)| && known == (hash in old(Owed()))
      ensures Owed() == if known then old(Owed())[hash := PaidDown(cfg, old(Owed())[hash], tokens)] else old(Owed())
    {
      var pos := Position(hash);
      known := pos.Some?;
      if known {
        var perToken := cfg.period / Max(cfg.amount, 1);
        var credit := Min(perToken * tokens, U64_MAX);
        debts := debts[pos.value := debts[pos.value].(settlesAt := Monus(debts[pos.value].settlesAt, credit))];
      }
    }

    /** Clears the debt under `hash`; the answer is when it would have settled. */
    method Collect(hash: nat) returns (debt: Option<nat>)
      requires Valid()
      modifies this`index, this`debts
      ensures Valid() && Owed() == old(Owed()) - {hash}
      ensures debt == if hash in old(Owed()) then Some(old(Owed())[hash]) else None
      ensures |debts| == |old(debts)| - if debt.Some? then 1 else 0
      ensures debt.None? ==> debts == old(debts)
    {
      var pos := Position(hash);
      if pos.None? {
        return None;
      }
      debt := Some(debts[pos.value].settlesAt);
      RemoveAt(pos.value);
    }

    /** Finds an entry to give up among the ones next in turn (`at` is how far it was): the first settled one,
        or with none settled one that settles soonest. */
    method Scan(now: nat) returns (soonest: nat, ghost at: nat)
      requires Valid() && debts != []
      modifies this`cursor
      ensures Valid() && debts == old(debts) && Owed() == old(Owed())
      ensures at < |SettleTimes(debts, old(cursor))| && soonest == Visited(old(cursor), |debts|, at)
      ensures var times := SettleTimes(debts, old(cursor));
              && times[at] == debts[soonest].settlesAt
              && if times[at] <= now then forall d | 0 <= d < at :: times[d] > now
                 else IsLeast(times, times[at])
    {
      soonest, at := 0, 0;
      ghost var times := SettleTimes(debts, cursor);
      for k := 0 to Min(LEDGER_SCAN, |debts|)
        invariant k == 0 ==> cursor == old(cursor)
        invariant 0 < k < |debts| ==> cursor == Visited(old(cursor), |debts|, k) || (cursor == |debts| && Visited(old(cursor), |debts|, k) == 0)
        invariant debts == old(debts) && index == old(index)
        invariant k > 0 ==> at < k && soonest == Visited(old(cursor), |debts|, at)
        invariant k > 0 ==> forall d | 0 <= d < k :: times[d] >= times[at] > now
      {
        if cursor >= |debts| {
          cursor := 0;
        }
        assert cursor == Visited(old(cursor), |debts|, k);
        if debts[cursor].settlesAt <= now {
          return cursor, k;
        }
        if k == 0 || debts[cursor].settlesAt < debts[soonest].settlesAt {
          soonest, at := cursor, k;
        }
        cursor := cursor + 1;
      }
    }

    /** Adds a debt. One already held under its hash keeps the later settle time. A full ledger first gives up
        an entry next in turn, `gone`: a settled one, or (only with `forget`) the one that settles soonest;
        when there is neither, nothing changes and the answer is how long until the first of them settles. */
    method Record(debt: Debt, now: nat, cap: nat, forget: bool) returns (refused: Option<nat>, ghost gone: Option<nat>)
      requires Valid() && cap > 0
      modifies this
      ensures Valid()
      ensures |debts| <= Max(|old(debts)|, cap)
      ensures refused.Some? ==> debts == old(debts) && Owed() == old(Owed()) && gone == None
      ensures refused.Some? ==>
                && |debts| >= cap && !forget && debt.hash !in Owed()
                && IsLeast(SettleTimes(debts, old(cursor)), now + refused.value) && refused.value > 0
      ensures debt.hash in old(Owed()) && refused.None? ==>
                gone == None && Owed() == old(Owed())[debt.hash := Max(old(Owed())[debt.hash], debt.settlesAt)]
      ensures debt.hash !in old(Owed()) && refused.None? && gone == None ==>
                |old(debts)| < cap && Owed() == old(Owed())[debt.hash := debt.settlesAt]
      ensures gone.Some? ==>
                && gone.value in old(Owed())
                && (old(Owed())[gone.value] <= now || (forget && IsLeast(SettleTimes(old(debts), old(cursor)), old(Owed())[gone.value])))
                && Owed() == (old(Owed()) - {gone.value})[debt.hash := debt.settlesAt]
    {
      hide Visited, SwapRemove, SettleTimes;
      gone := None;
      refused := None;
      var pos := Position(debt.hash);
      if pos.Some? {
        debts := debts[pos.value := debts[pos.value].(settlesAt := Max(debts[pos.value].settlesAt, debt.settlesAt))];
        return;
      }
      if |debts| >= cap {
        var soonest;
        ghost var at;
        soonest, at := Scan(now);
        var held := debts[soonest];
        if held.settlesAt > now && !forget {
          return Some(Monus(held.settlesAt, now)), None;
        }
        gone := Some(held.hash);
        RemoveAt(soonest);
      }
      Push(debt);
    }

    method Push(debt: Debt)
      requires Valid() && debt.hash !in Owed()
      modifies this`index, this`debts
      ensures Valid() && debts == old(debts) + [debt]
      ensures Owed() == old(Owed())[debt.hash := debt.settlesAt]
    {
      index := index[debt.hash := |debts|];
      debts := debts + [debt];
    }

    /** Looks at the next `budget` entries in turn and drops the settled ones. */
    method Sweep(now: nat, budget: nat)
      requires Valid()
      modifies this
      ensures Valid() && (debts, cursor) == Swept(old(debts), old(cursor), now, budget)
      ensures |debts| <= |old(debts)|
      ensures forall h <- Owed() :: h in old(Owed()) && Owed()[h] == old(Owed())[h]
      ensures forall h <- old(Owed()) :: h in Owed() || old(Owed())[h] <= now
    {
      for k := 0 to budget
        invariant Valid() && |debts| <= |old(debts)|
        invariant Swept(debts, cursor, now, budget - k) == Swept(old(debts), old(cursor), now, budget)
        invariant forall h <- Owed() :: h in old(Owed()) && Owed()[h] == old(Owed())[h]
        invariant forall h <- old(Owed()) :: h in Owed() || old(Owed())[h] <= now
      {
        if |debts| == 0 {
          break;
        }
        SweepNext(now);
      }
    }

    /** Drops the entry whose turn it is if it is settled (the last one then takes its place and its turn), and
        passes it otherwise. */
    method SweepNext(now: nat)
      requires Valid() && debts != []
      modifies this
      ensures Valid()
      ensures var at := if old(cursor) >= |old(debts)| then 0 else old(cursor);
              var debt := old(debts)[at];
              && debt.hash in old(Owed()) && old(Owed())[debt.hash] == debt.settlesAt
              && if debt.settlesAt <= now then cursor == at && debts == SwapRemove(old(debts), at) && Owed() == old(Owed()) - {debt.hash}
                 else cursor == at + 1 && debts == old(debts) && Owed() == old(Owed())
    {
      if cursor >= |debts| {
        cursor := 0;
      }
      if debts[cursor].settlesAt <= now {
        RemoveAt(cursor);
      } else {
        cursor := cursor + 1;
      }
    }
  }

  /** When the entries whose turn is next settle. */
  function SettleTimes(debts: seq<Debt>, cursor: nat): seq<nat> {
    seq(Min(LEDGER_SCAN, |debts|), d requires 0 <= d < |debts| => debts[Visited(cursor, |debts|, d)].settlesAt)
  }

  /** The debts left, and the cursor, after giving `budget` entries their turn. */
  function Swept(debts: seq<Debt>, cursor: nat, now: nat, budget: nat): (seq<Debt>, nat)
    decreases budget
  {
    if budget == 0 || debts == [] then (debts, cursor)
    else
      var at := if cursor >= |debts| then 0 else cursor;
      if debts[at].settlesAt <= now then Swept(SwapRemove(debts, at), at, now, budget - 1)
      else Swept(debts, at + 1, now, budget - 1)
  }

  /** A sweep is as quick as it can be: of debts that are all settled, each turn drops one. */
  lemma {:induction false} SettledDebtsGo(debts: seq<Debt>, cursor: nat, now: nat, budget: nat)
    requires forall d <- debts :: d.settlesAt <= now
    ensures |Swept(debts, cursor, now, budget).0| == Monus(|debts|, budget)
    decreases budget
  {
    if budget > 0 && debts != [] {
      var at := if cursor >= |debts| then 0 else cursor;
      SettledDebtsGo(SwapRemove(debts, at), at, now, budget - 1);
    }
  }

  /** And it passes over nothing settled: up to the end of the row, every entry the cursor moves past is a debt
      still owed. */
  lemma {:induction false} SweptPastUnsettled(debts: seq<Debt>, cursor: nat, now: nat, budget: nat)
    requires cursor + budget <= |debts|
    ensures var (left, after) := Swept(debts, cursor, now, budget);
            && |left| + budget == |debts| + (after - cursor)
            && cursor <= after <= |left| && left[..cursor] == debts[..cursor]
            && forall i | cursor <= i < after :: left[i].settlesAt > now
    decreases budget
  {
    if budget > 0 {
      if debts[cursor].settlesAt <= now {
        SweptPastUnsettled(SwapRemove(debts, cursor), cursor, now, budget - 1);
      } else {
        SweptPastUnsettled(debts, cursor + 1, now, budget - 1);
        var (left, _) := Swept(debts, cursor + 1, now, budget - 1);
        assert left[cursor] == left[..cursor + 1][cursor] == debts[cursor];
      }
    }
  }

  // --- A sweep that goes all the way round ---------------------------------------------------------------

  /** The `d`-th entry in turn. */
  function Turn<T>(s: seq<T>, cursor: nat, d: nat): T
    requires d < |s|
  {
    s[Visited(cursor, |s|, d)]
  }

  /** Everything but the `turns` entries next in turn is `good`. */
  predicate GoodBut<T>(s: seq<T>, cursor: nat, turns: nat, good: T -> bool) {
    forall d | turns <= d < |s| :: good(Turn(s, cursor, d))
  }

  lemma PassedGood<T>(s: seq<T>, at: nat, turns: nat, good: T -> bool)
    requires at < |s| && turns > 0 && GoodBut(s, at, turns, good) && good(s[at])
    ensures GoodBut(s, at + 1, turns - 1, good)
  {
    var next := at + 1;
    forall d | turns - 1 <= d < |s| ensures good(Turn(s, next, d)) {
      assert Turn(s, next, d) == if d < |s| - 1 then Turn(s, at, d + 1) else s[at];
    }
  }

  lemma RemovedGood<T>(s: seq<T>, at: nat, turns: nat, good: T -> bool)
    requires at < |s| && 0 < turns <= |s| && GoodBut(s, at, turns, good)
    ensures GoodBut(SwapRemove(s, at), at, Min(turns, |s| - 1), good)
  {
    var r := SwapRemove(s, at);
    forall d | Min(turns, |r|) <= d < |r| ensures good(Turn(r, at, d)) {
      assert Turn(r, at, d) == if at + d < |r| then Turn(s, at, d) else Turn(s, at, d + 1);
    }
  }

  lemma WrapsTo<T>(s: seq<T>, cursor: nat, turns: nat, good: T -> bool)
    requires s != [] && GoodBut(s, cursor, turns, good)
    ensures GoodBut(s, if cursor >= |s| then 0 else cursor, turns, good)
  {
    var at := if cursor >= |s| then 0 else cursor;
    assert forall d | 0 <= d < |s| :: Turn(s, at, d) == Turn(s, cursor, d);
  }

  lemma AllGood<T>(s: seq<T>, cursor: nat, good: T -> bool)
    requires GoodBut(s, cursor, 0, good)
    ensures forall x <- s :: good(x)
  {
    forall i | 0 <= i < |s| ensures good(s[i]) {
      var at := if cursor >= |s| then 0 else cursor;
      var d := if i >= at then i - at else i + |s| - at;
      assert Turn(s, cursor, d) == s[i];
    }
  }

  /** A sweep leaves debts alone that are all still owed. */
  lemma {:induction false} UnsettledStay(debts: seq<Debt>, cursor: nat, now: nat, budget: nat)
    requires forall d <- debts :: d.settlesAt > now
    ensures Swept(debts, cursor, now, budget).0 == debts
    decreases budget
  {
    if budget > 0 && debts != [] {
      var at := if cursor >= |debts| then 0 else cursor;
      assert debts[at] in debts;
      UnsettledStay(debts, at + 1, now, budget - 1);
    }
  }

  lemma {:induction false} RestCleared(debts: seq<Debt>, cursor: nat, now: nat, budget: nat, turns: nat)
    requires turns <= |debts| && budget >= turns + |debts|
    requires GoodBut(debts, cursor, turns, (d: Debt) => d.settlesAt > now)
    ensures forall d <- Swept(debts, cursor, now, budget).0 :: d.settlesAt > now
    decreases budget
  {
    var unsettled := (d: Debt) => d.settlesAt > now;
    if turns == 0 {
      AllGood(debts, cursor, unsettled);
      assert forall d <- debts :: unsettled(d);
      UnsettledStay(debts, cursor, now, budget);
    } else {
      var at := if cursor >= |debts| then 0 else cursor;
      WrapsTo(debts, cursor, turns, unsettled);
      if debts[at].settlesAt <= now {
        RemovedGood(debts, at, turns, unsettled);
        RestCleared(SwapRemove(debts, at), at, now, budget - 1, Min(turns, |debts| - 1));
      } else {
        PassedGood(debts, at, turns, unsettled);
        RestCleared(debts, at + 1, now, budget - 1, turns - 1);
      }
    }
  }

  /** From wherever the cursor is: with a turn for every debt and every place it may have to look at again, no
      settled debt is left. */
  lemma WholeSweepClears(debts: seq<Debt>, cursor: nat, now: nat, budget: nat)
    requires budget >= 2 * |debts|
    ensures forall d <- Swept(debts, cursor, now, budget).0 :: d.settlesAt > now
  {
    RestCleared(debts, cursor, now, budget, |debts|);
  }
}

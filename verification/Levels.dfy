/** One priority level of the queue: the keys waiting there in order of service, each key's waiters in order
    of arrival, and all of its waiters. */
module Levels {
  import opened Common
  import opened Scheduling

  /** `order`: a pair of recency and key id for each key waiting here. */
  datatype Level = Level(order: set<(nat, nat)>, byKey: map<nat, seq<nat>>, tickets: set<nat>)

  const NO_LEVEL := Level({}, map[], {})

  predicate Ascending(s: seq<nat>) {
    forall i, j | 0 <= i < j < |s| :: s[i] < s[j]
  }

  function Without(s: seq<nat>, x: nat): seq<nat> {
    if s == [] then [] else if s[0] == x then s[1..] else [s[0]] + Without(s[1..], x)
  }

  lemma {:induction false} WithoutKeepsOrder(s: seq<nat>, x: nat)
    requires Ascending(s)
    ensures Ascending(Without(s, x))
    ensures forall y :: y in Without(s, x) <==> y in s && y != x
  {
    if s != [] && s[0] != x {
      WithoutKeepsOrder(s[1..], x);
      var rest := Without(s[1..], x);
      forall j | 0 <= j < |rest| ensures s[0] < rest[j] {
        assert rest[j] in s[1..];
      }
    }
  }

  /** A key's waiters here, in order of arrival. */
  ghost predicate IsLine(line: seq<nat>, at: map<nat, nat>, id: nat) {
    line != [] && Ascending(line) && forall t: nat :: t in line <==> (t in at && at[t] == id)
  }

  /** The level's lines hold exactly the waiters in `at`, each under its own key. */
  ghost predicate LinesMatch(level: Level, at: map<nat, nat>) {
    && level.tickets == at.Keys
    && (forall id <- level.byKey :: IsLine(level.byKey[id], at, id))
    && (forall t <- at :: at[t] in level.byKey)
  }

  /** The order lists exactly the keys with a line, each with its recency. */
  predicate OrderMatches(level: Level, recency: map<nat, nat>) {
    && (forall e <- level.order :: e.1 in level.byKey && e.1 in recency && e.0 == recency[e.1])
    && (forall id <- level.byKey :: id in recency && (recency[id], id) in level.order)
  }

  ghost predicate Holds(level: Level, at: map<nat, nat>, recency: map<nat, nat>) {
    LinesMatch(level, at) && OrderMatches(level, recency)
  }

  function Joined(level: Level, id: nat, recency: nat, ticket: nat): Level {
    Level(if id in level.byKey then level.order else level.order + {(recency, id)},
          level.byKey[id := (if id in level.byKey then level.byKey[id] else []) + [ticket]],
          level.tickets + {ticket})
  }

  function Parted(level: Level, id: nat, recency: nat, ticket: nat): Level
    requires id in level.byKey
  {
    var line := Without(level.byKey[id], ticket);
    if line == [] then Level(level.order - {(recency, id)}, level.byKey - {id}, level.tickets - {ticket})
    else Level(level.order, level.byKey[id := line], level.tickets - {ticket})
  }

  function Restamped(level: Level, id: nat, was: nat, stamp: nat): Level {
    if (was, id) in level.order then level.(order := level.order - {(was, id)} + {(stamp, id)}) else level
  }

  lemma LineJoined(line: seq<nat>, at: map<nat, nat>, id: nat, ticket: nat)
    requires (line == [] && forall t <- at :: at[t] != id) || IsLine(line, at, id)
    requires forall t <- at :: t < ticket
    ensures IsLine(line + [ticket], at[ticket := id], id)
  {
    var longer, more := line + [ticket], at[ticket := id];
    forall i, j | 0 <= i < j < |longer| ensures longer[i] < longer[j] {
      assert line[i] in line;
      if j < |line| { assert line[i] < line[j]; }
    }
    forall t: nat ensures t in longer <==> (t in more && more[t] == id) {
      assert t in longer <==> t in line || t == ticket;
    }
  }

  lemma JoinedLines(level: Level, at: map<nat, nat>, id: nat, recency: nat, ticket: nat)
    requires LinesMatch(level, at) && forall t <- at :: t < ticket
    ensures LinesMatch(Joined(level, id, recency, ticket), at[ticket := id])
  {
    var after := Joined(level, id, recency, ticket);
    LineJoined(if id in level.byKey then level.byKey[id] else [], at, id, ticket);
    forall other | other in after.byKey ensures IsLine(after.byKey[other], at[ticket := id], other) {
      if other != id { assert ticket !in at && IsLine(level.byKey[other], at, other); }
    }
  }

  lemma JoinedHolds(level: Level, at: map<nat, nat>, recency: map<nat, nat>, id: nat, ticket: nat)
    requires Holds(level, at, recency) && id in recency && forall t <- at :: t < ticket
    ensures Holds(Joined(level, id, recency[id], ticket), at[ticket := id], recency)
  {
    JoinedLines(level, at, id, recency[id], ticket);
  }

  lemma PartedLines(level: Level, at: map<nat, nat>, recency: nat, ticket: nat)
    requires LinesMatch(level, at) && ticket in at
    ensures LinesMatch(Parted(level, at[ticket], recency, ticket), at - {ticket})
  {
    var id := at[ticket];
    var after, rest := Parted(level, id, recency, ticket), at - {ticket};
    assert IsLine(level.byKey[id], at, id);
    WithoutKeepsOrder(level.byKey[id], ticket);
    forall other | other in after.byKey ensures IsLine(after.byKey[other], rest, other) {
      if other != id { assert IsLine(level.byKey[other], at, other); }
    }
    forall t | t in rest ensures rest[t] in after.byKey {
      if rest[t] == id { assert t in level.byKey[id]; }
    }
  }

  lemma PartedHolds(level: Level, at: map<nat, nat>, recency: map<nat, nat>, ticket: nat)
    requires Holds(level, at, recency) && ticket in at && at[ticket] in recency
    ensures Holds(Parted(level, at[ticket], recency[at[ticket]], ticket), at - {ticket}, recency)
  {
    PartedLines(level, at, recency[at[ticket]], ticket);
  }

  lemma RestampedHolds(level: Level, at: map<nat, nat>, recency: map<nat, nat>, id: nat, stamp: nat)
    requires Holds(level, at, recency) && id in recency
    ensures Holds(Restamped(level, id, recency[id], stamp), at, recency[id := stamp])
  {
  }

  /** Only the recencies of the keys waiting here matter. */
  lemma SameRecencies(level: Level, at: map<nat, nat>, recency: map<nat, nat>, other: map<nat, nat>)
    requires Holds(level, at, recency)
    requires forall t <- at :: at[t] in recency && at[t] in other && other[at[t]] == recency[at[t]]
    ensures Holds(level, at, other)
  {
    forall id | id in level.byKey ensures id in other && other[id] == recency[id] {
      assert level.byKey[id][0] in at;
    }
  }

  // --- All levels --------------------------------------------------------------------------------------

  /** The waiters of one priority, with their key ids. */
  function AtPriority(waiters: map<nat, Waiter>, priority: nat): map<nat, nat> {
    map t | t in waiters && waiters[t].priority == priority :: waiters[t].keyId
  }

  ghost predicate LevelOk(level: Level, waiters: map<nat, Waiter>, priority: nat, recency: map<nat, nat>) {
    level.tickets != {} && Holds(level, AtPriority(waiters, priority), recency)
  }

  lemma SameWaiters(level: Level, waiters: map<nat, Waiter>, after: map<nat, Waiter>, priority: nat, recency: map<nat, nat>)
    requires LevelOk(level, waiters, priority, recency) && AtPriority(after, priority) == AtPriority(waiters, priority)
    ensures LevelOk(level, after, priority, recency)
  {
  }

  /** There is a level for exactly the priorities someone waits at, and each is right. */
  ghost predicate Leveled(levels: map<nat, Level>, waiters: map<nat, Waiter>, recency: map<nat, nat>) {
    && (forall t <- waiters :: waiters[t].priority in levels)
    && (forall p <- levels :: LevelOk(levels[p], waiters, p, recency))
  }

  function LevelAt(levels: map<nat, Level>, priority: nat): Level {
    if priority in levels then levels[priority] else NO_LEVEL
  }

  lemma LevelAtHolds(levels: map<nat, Level>, waiters: map<nat, Waiter>, recency: map<nat, nat>, priority: nat)
    requires Leveled(levels, waiters, recency)
    ensures Holds(LevelAt(levels, priority), AtPriority(waiters, priority), recency)
  {
    if priority !in levels {
      assert AtPriority(waiters, priority) == map[];
    }
  }

  lemma AtPriorityAdded(waiters: map<nat, Waiter>, ticket: nat, w: Waiter, p: nat)
    requires ticket !in waiters
    ensures AtPriority(waiters[ticket := w], p) ==
            if p == w.priority then AtPriority(waiters, p)[ticket := w.keyId] else AtPriority(waiters, p)
  {
  }

  lemma AtPriorityRemoved(waiters: map<nat, Waiter>, ticket: nat, p: nat)
    requires ticket in waiters
    ensures AtPriority(waiters - {ticket}, p) ==
            if p == waiters[ticket].priority then AtPriority(waiters, p) - {ticket} else AtPriority(waiters, p)
  {
  }

  lemma OwnLevelJoined(levels: map<nat, Level>, waiters: map<nat, Waiter>, recency: map<nat, nat>, ticket: nat, w: Waiter)
    requires Leveled(levels, waiters, recency) && w.keyId in recency && forall t <- waiters :: t < ticket
    ensures LevelOk(Joined(LevelAt(levels, w.priority), w.keyId, recency[w.keyId], ticket), waiters[ticket := w],
                    w.priority, recency)
  {
    LevelAtHolds(levels, waiters, recency, w.priority);
    hide Leveled, LevelAt;
    JoinedHolds(LevelAt(levels, w.priority), AtPriority(waiters, w.priority), recency, w.keyId, ticket);
    hide Holds;
    AtPriorityAdded(waiters, ticket, w, w.priority);
    hide AtPriority;
  }

  /** A waiter joins its level. */
  lemma LevelsJoined(levels: map<nat, Level>, waiters: map<nat, Waiter>, recency: map<nat, nat>, ticket: nat, w: Waiter)
    requires Leveled(levels, waiters, recency) && w.keyId in recency && forall t <- waiters :: t < ticket
    ensures Leveled(levels[w.priority := Joined(LevelAt(levels, w.priority), w.keyId, recency[w.keyId], ticket)],
                    waiters[ticket := w], recency)
  {
    hide Joined, LevelOk, AtPriority, Holds, LevelAt;
    OwnLevelJoined(levels, waiters, recency, ticket, w);
    forall p | p in levels && p != w.priority ensures LevelOk(levels[p], waiters[ticket := w], p, recency) {
      AtPriorityAdded(waiters, ticket, w, p);
      SameWaiters(levels[p], waiters, waiters[ticket := w], p, recency);
    }
  }

  function LevelsParted(levels: map<nat, Level>, w: Waiter, recency: nat, ticket: nat): map<nat, Level>
    requires w.priority in levels && w.keyId in levels[w.priority].byKey
  {
    var level := Parted(levels[w.priority], w.keyId, recency, ticket);
    if level.tickets == {} then levels - {w.priority} else levels[w.priority := level]
  }

  lemma LevelOf(levels: map<nat, Level>, waiters: map<nat, Waiter>, recency: map<nat, nat>, ticket: nat)
    requires Leveled(levels, waiters, recency) && ticket in waiters
    ensures waiters[ticket].priority in levels
    ensures var level := levels[waiters[ticket].priority];
            waiters[ticket].keyId in level.byKey && ticket in level.byKey[waiters[ticket].keyId]
  {
    var level, at := levels[waiters[ticket].priority], AtPriority(waiters, waiters[ticket].priority);
    assert ticket in at && Holds(level, at, recency);
    assert IsLine(level.byKey[at[ticket]], at, at[ticket]);
  }

  lemma OtherLevels(levels: map<nat, Level>, waiters: map<nat, Waiter>, recency: map<nat, nat>, ticket: nat)
    requires Leveled(levels, waiters, recency) && ticket in waiters
    ensures forall p <- levels | p != waiters[ticket].priority :: LevelOk(levels[p], waiters - {ticket}, p, recency)
  {
    forall p | p in levels && p != waiters[ticket].priority ensures LevelOk(levels[p], waiters - {ticket}, p, recency) {
      AtPriorityRemoved(waiters, ticket, p);
      SameWaiters(levels[p], waiters, waiters - {ticket}, p, recency);
    }
  }

  lemma OwnLevel(levels: map<nat, Level>, waiters: map<nat, Waiter>, recency: map<nat, nat>, ticket: nat)
    requires Leveled(levels, waiters, recency) && ticket in waiters && waiters[ticket].keyId in recency
    requires waiters[ticket].priority in levels && waiters[ticket].keyId in levels[waiters[ticket].priority].byKey
    ensures var w := waiters[ticket];
            var level := Parted(levels[w.priority], w.keyId, recency[w.keyId], ticket);
            && (level.tickets != {} ==> LevelOk(level, waiters - {ticket}, w.priority, recency))
            && level.tickets == AtPriority(waiters - {ticket}, w.priority).Keys
  {
    var w := waiters[ticket];
    AtPriorityRemoved(waiters, ticket, w.priority);
    PartedHolds(levels[w.priority], AtPriority(waiters, w.priority), recency, ticket);
  }

  lemma PrioritiesKept(levels: map<nat, Level>, waiters: map<nat, Waiter>, parted: map<nat, Level>, ticket: nat)
    requires ticket in waiters && forall t <- waiters :: waiters[t].priority in levels
    requires forall p <- levels :: p in parted || (p == waiters[ticket].priority && AtPriority(waiters - {ticket}, p).Keys == {})
    ensures forall t <- waiters - {ticket} :: (waiters - {ticket})[t].priority in parted
  {
    forall t | t in waiters - {ticket} ensures (waiters - {ticket})[t].priority in parted {
      if waiters[t].priority !in parted { assert t in AtPriority(waiters - {ticket}, waiters[t].priority).Keys; }
    }
  }

  /** A waiter leaves its level, and the level goes with its last waiter. */
  lemma LevelsLeft(levels: map<nat, Level>, waiters: map<nat, Waiter>, recency: map<nat, nat>, ticket: nat)
    requires Leveled(levels, waiters, recency) && ticket in waiters && waiters[ticket].keyId in recency
    requires waiters[ticket].priority in levels && waiters[ticket].keyId in levels[waiters[ticket].priority].byKey
    ensures Leveled(LevelsParted(levels, waiters[ticket], recency[waiters[ticket].keyId], ticket), waiters - {ticket}, recency)
  {
    hide LevelOk, Holds;
    var w := waiters[ticket];
    OtherLevels(levels, waiters, recency, ticket);
    OwnLevel(levels, waiters, recency, ticket);
    var level := Parted(levels[w.priority], w.keyId, recency[w.keyId], ticket);
    LevelReplaced(levels, waiters - {ticket}, recency, w.priority, level);
    PrioritiesKept(levels, waiters, LevelsParted(levels, w, recency[w.keyId], ticket), ticket);
  }

  lemma LevelReplaced(levels: map<nat, Level>, waiters: map<nat, Waiter>, recency: map<nat, nat>, priority: nat, level: Level)
    requires forall p <- levels | p != priority :: LevelOk(levels[p], waiters, p, recency)
    requires level.tickets != {} ==> LevelOk(level, waiters, priority, recency)
    ensures var after := if level.tickets == {} then levels - {priority} else levels[priority := level];
            forall p <- after :: LevelOk(after[p], waiters, p, recency)
  {
  }

  function LevelsStamped(levels: map<nat, Level>, id: nat, was: nat, stamp: nat): map<nat, Level> {
    map p | p in levels :: Restamped(levels[p], id, was, stamp)
  }

  lemma LevelsRestamped(levels: map<nat, Level>, waiters: map<nat, Waiter>, recency: map<nat, nat>, id: nat, stamp: nat)
    requires Leveled(levels, waiters, recency) && id in recency
    ensures Leveled(LevelsStamped(levels, id, recency[id], stamp), waiters, recency[id := stamp])
  {
    forall p | p in levels ensures Holds(Restamped(levels[p], id, recency[id], stamp), AtPriority(waiters, p), recency[id := stamp]) {
      RestampedHolds(levels[p], AtPriority(waiters, p), recency, id, stamp);
    }
  }

  lemma LevelsSameRecencies(levels: map<nat, Level>, waiters: map<nat, Waiter>, recency: map<nat, nat>, other: map<nat, nat>)
    requires Leveled(levels, waiters, recency)
    requires forall t <- waiters :: waiters[t].keyId in recency && waiters[t].keyId in other && other[waiters[t].keyId] == recency[waiters[t].keyId]
    ensures Leveled(levels, waiters, other)
  {
    forall p | p in levels ensures Holds(levels[p], AtPriority(waiters, p), other) {
      SameRecencies(levels[p], AtPriority(waiters, p), recency, other);
    }
  }

  // --- The heads of the indexes ------------------------------------------------------------------------

  predicate PairLeast(s: set<(nat, nat)>, e: (nat, nat)) {
    e in s && forall f <- s :: e == f || KeyPrecedes(e.0, e.1, f.0, f.1)
  }

  predicate Greatest(s: set<nat>, x: nat) {
    x in s && forall y <- s :: y <= x
  }

  predicate Least(s: set<nat>, x: nat) {
    x in s && forall y <- s :: x <= y
  }

  lemma {:induction false} PairLeastExists(s: set<(nat, nat)>) returns (e: (nat, nat))
    requires s != {}
    ensures PairLeast(s, e)
  {
    var x :| x in s;
    var rest := s - {x};
    e := x;
    if rest != {} {
      var f := PairLeastExists(rest);
      if KeyPrecedes(f.0, f.1, x.0, x.1) { e := f; }
    }
    forall g | g in s ensures e == g || KeyPrecedes(e.0, e.1, g.0, g.1) {
      assert g == x || g in rest;
    }
  }

  lemma {:induction false} GreatestExists(s: set<nat>) returns (m: nat)
    requires s != {}
    ensures Greatest(s, m)
  {
    var x :| x in s;
    var rest := s - {x};
    m := x;
    if rest != {} {
      var y := GreatestExists(rest);
      if y > x { m := y; }
    }
    forall z | z in s ensures z <= m { assert z == x || z in rest; }
  }

  lemma {:induction false} LeastExists(s: set<nat>) returns (m: nat)
    requires s != {}
    ensures Least(s, m)
  {
    var x :| x in s;
    var rest := s - {x};
    m := x;
    if rest != {} {
      var y := LeastExists(rest);
      if y < x { m := y; }
    }
    forall z | z in s ensures m <= z { assert z == x || z in rest; }
  }

  /** The first element of an ordered set of pairs. */
  method FirstPair(s: set<(nat, nat)>) returns (first: Option<(nat, nat)>)
    ensures first.None? <==> s == {}
    ensures first.Some? ==> PairLeast(s, first.value)
  {
    if s == {} {
      return None;
    }
    ghost var least := PairLeastExists(s);
    var e :| PairLeast(s, e);
    first := Some(e);
  }

  method First(s: set<nat>) returns (first: Option<nat>)
    ensures first.None? <==> s == {}
    ensures first.Some? ==> Least(s, first.value)
  {
    if s == {} {
      return None;
    }
    ghost var least := LeastExists(s);
    var x :| Least(s, x);
    first := Some(x);
  }

  method Last(s: set<nat>) returns (last: Option<nat>)
    ensures last.None? <==> s == {}
    ensures last.Some? ==> Greatest(s, last.value)
  {
    if s == {} {
      return None;
    }
    ghost var greatest := GreatestExists(s);
    var x :| Greatest(s, x);
    last := Some(x);
  }
}

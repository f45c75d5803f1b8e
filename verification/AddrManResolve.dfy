/** Test before evict: when a waiting entry takes the tried slot it waits for, when it goes on waiting, and that
    nothing else changes. */
module AddrManResolve {
  import opened Options
  import opened AddrManState
  import opened AddrManInvariant
  import opened AddrManOps
  import opened AddrManRun
  import opened AddrManEffects
  import opened AddrManWaiting

  const FOUR_HOURS := 14400
  const FORTY_MINUTES := 2400

  /** The old entry has lost its slot: it has not connected for four hours, and either it was tried within that
      time, more than a minute ago, or it was not, and the newcomer has waited for more than forty minutes. */
  predicate Stale(old_: AddrInfo, waiting: AddrInfo, now: int) {
    && now - old_.lastSuccess >= FOUR_HOURS
    && (60 < now - old_.lastTry < FOUR_HOURS || (now - old_.lastTry >= FOUR_HOURS && now - waiting.lastSuccess > FORTY_MINUTES))
  }

  /** Nothing is decided yet: the old entry has not connected for four hours, but is being tried, or may still be. */
  predicate Undecided(old_: AddrInfo, waiting: AddrInfo, now: int) {
    && now - old_.lastSuccess >= FOUR_HOURS
    && (now - old_.lastTry <= 60 || (now - old_.lastTry >= FOUR_HOURS && now - waiting.lastSuccess <= FORTY_MINUTES))
  }

  /** The waiting ids are right: each collides if it is alive, and none is in the tried table itself. */
  ghost predicate Settled(env: Env, s: State) {
    Consistent(env, s) && Untried(s)
  }

  ghost function WantedSlot(env: Env, s: State, id: int): Slot
    requires id in s.info
  {
    TriedSlot(env, s.key, s.info[id].service)
  }

  lemma {:induction false} Occupied(env: Env, s: State, id: int)
    requires Settled(env, s) && id in s.collisions && id in s.info
    ensures WantedSlot(env, s, id) in s.triedTable
    ensures var x := s.triedTable[WantedSlot(env, s, id)]; x in s.info && s.info[x].inTried && x != id
    ensures !s.info[id].inTried && s.info[id].refCount > 0 && env.valid(s.info[id].service.ip)
    ensures id in s.info && Find(s, s.info[id].service) == Some(id)
  {
    hide NewOk, CountsOk, MapsOk, RandomOk, TriedSlot;
    NotIdle(s, id);
    FoundAt(s, id);
  }

  // ---------- one waiting id ----------

  /** A live waiting entry takes its slot exactly if the occupant is stale, and still waits exactly if nothing is
      decided. If it takes the slot the occupant goes back to the new table; if not, only the waiting list can have
      changed. */
  lemma {:induction false} ResolvedExact(env: Env, s: State, id: int, now: int)
    requires Settled(env, s) && id in s.collisions && id in s.info
    ensures WantedSlot(env, s, id) in s.triedTable && s.triedTable[WantedSlot(env, s, id)] in s.info
    ensures var slot := WantedSlot(env, s, id); var x := s.triedTable[slot]; var t := ResolveOne(env, s, id, now);
      && (id in t.collisions <==> Undecided(s.info[x], s.info[id], now))
      && (forall w :: w != id ==> (w in t.collisions <==> w in s.collisions))
      && (if Stale(s.info[x], s.info[id], now) then
            && t.triedTable == s.triedTable[slot := id]
            && t.newTable == Without(s.newTable, id)[NewSlot(env, s.key, s.info[x].service, s.info[x].source) := x]
            && id in t.info && t.info[id].inTried && x in t.info && !t.info[x].inTried
          else
            t == s.(collisions := t.collisions))
  {
    hide NewOk, TriedOk, CountsOk, MapsOk, RandomOk, AddressesOk, LiveOk, TriedSlot, NewSlot, Good, Without, CollisionsOk;
    Occupied(env, s, id);
    if Judge(env, s, id, now) == Replace {
      ReplacedEffect(env, s, id, now);
    }
  }

  lemma {:induction false} ReplacedEffect(env: Env, s: State, id: int, now: int)
    requires Settled(env, s) && id in s.collisions && id in s.info
    ensures WantedSlot(env, s, id) in s.triedTable && s.triedTable[WantedSlot(env, s, id)] in s.info
    ensures var slot := WantedSlot(env, s, id); var x := s.triedTable[slot];
      var t := Good(env, s, s.info[id].service, false, now).0;
      && t.triedTable == s.triedTable[slot := id]
      && t.newTable == Without(s.newTable, id)[NewSlot(env, s.key, s.info[x].service, s.info[x].source) := x]
      && id in t.info && t.info[id].inTried && x in t.info && !t.info[x].inTried
      && t.collisions == s.collisions
  {
    hide NewOk, TriedOk, CountsOk, MapsOk, RandomOk, AddressesOk, LiveOk, TriedSlot, NewSlot, MakeTried, Without, CollisionsOk;
    Occupied(env, s, id);
    var a := s.info[id].service;
    GoodKeeps(env, s, a, false, now);
    GoodEffect(env, s, a, false, now);
    TriedValues(env, s, id);
    SucceedKeeps(env, s, id, now);
    var u := Succeed(s, id, now);
    MakeTriedEffect(env, u, id, id);
    var t := Good(env, s, a, false, now).0;
    var slot := WantedSlot(env, s, id);
    var x := s.triedTable[slot];
    OccupantIsTried(env, t, slot);
    HolderIsUntried(env, t, NewSlot(env, s.key, s.info[x].service, s.info[x].source));
  }

  lemma {:induction false} HolderIsUntried(env: Env, s: State, slot: Slot)
    requires NewOk(env, s) && slot in s.newTable
    ensures s.newTable[slot] in s.info && !s.info[s.newTable[slot]].inTried
  {
  }

  // ---------- all waiting ids ----------

  /** A dead id is forgotten, and nothing else happens. */
  lemma {:induction false} DeadForgotten(env: Env, s: State, id: int, now: int)
    requires Inv(env, s, {}, {}) && id !in s.info
    ensures ResolveOne(env, s, id, now) == s.(collisions := s.collisions - {id})
  {
    hide NewOk, CountsOk, MapsOk, RandomOk, AddressesOk, LiveOk;
  }

  /** What is known about the other entries stays. */
  lemma {:induction false} ResolveOneStats(env: Env, s: State, id: int, now: int)
    requires Settled(env, s) && id in s.collisions
    ensures var t := ResolveOne(env, s, id, now);
      && Settled(env, t) && t.key == s.key && s.idCount <= t.idCount
      && (forall x :: x in t.info && x != id ==> x in s.info && SameStats(s.info[x], t.info[x]))
  {
    hide NewOk, TriedOk, CountsOk, MapsOk, RandomOk, AddressesOk, LiveOk, TriedSlot, Good, CollisionsOk, Untried, TimesOk;
    ResolveOneKeeps(env, s, id, now);
    match Judge(env, s, id, now)
    case Wait =>
    case Forget => FewerUntried(s, s.collisions - {id});
    case Replace =>
      ReplaceUntried(env, s, id, now);
      FoundAt(s, id);
      GoodEffect(env, s, s.info[id].service, false, now);
  }

  /** The slot changes hands in one step only for the id that waits for it, and only if its occupant is stale. */
  lemma {:induction false} OneStepSlot(env: Env, s: State, id: int, now: int, slot: Slot)
    requires Settled(env, s) && id in s.collisions && slot in s.triedTable
    ensures s.triedTable[slot] in s.info && slot in ResolveOne(env, s, id, now).triedTable
    ensures ResolveOne(env, s, id, now).triedTable[slot] == s.triedTable[slot]
      || (id in s.info && WantedSlot(env, s, id) == slot && Stale(s.info[s.triedTable[slot]], s.info[id], now))
    ensures forall w :: w != id ==> (w in ResolveOne(env, s, id, now).collisions <==> w in s.collisions)
  {
    hide NewOk, CountsOk, MapsOk, RandomOk, AddressesOk, LiveOk, TriedSlot, ResolveOne, CollisionsOk, Untried, Stale;
    if id in s.info {
      ResolvedExact(env, s, id, now);
    } else {
      DeadForgotten(env, s, id, now);
    }
  }

  /** Some pending live id waits for the slot and finds the occupant x stale, judged by what is recorded in s. */
  ghost predicate Challenged(env: Env, s: State, pending: set<int>, clock: int -> int, slot: Slot, x: int)
    requires x in s.info
  {
    exists id :: id in pending && id in s.info && WantedSlot(env, s, id) == slot && Stale(s.info[x], s.info[id], clock(id))
  }

  lemma {:induction false} SameOccupant(env: Env, s: State, t: State, id: int, slot: Slot)
    requires Settled(env, s) && Settled(env, t) && slot in s.triedTable && slot in t.triedTable
    requires t.triedTable[slot] == s.triedTable[slot] && id in s.collisions
    requires forall x :: x in t.info && x != id ==> x in s.info && SameStats(s.info[x], t.info[x])
    ensures var x := s.triedTable[slot]; x in s.info && x in t.info && x != id && SameStats(s.info[x], t.info[x])
  {
    hide NewOk, CountsOk, MapsOk, RandomOk, AddressesOk, LiveOk, TriedSlot, CollisionsOk, SameStats;
    OccupantIsTried(env, s, slot);
    OccupantIsTried(env, t, slot);
  }

  /** Test before evict, over a whole resolution: a tried entry loses its slot only if, by what was recorded at the
      start, some waiting entry found it stale. So an entry that has connected in the last four hours stays. */
  lemma {:induction false} EvictedOnlyIfStale(env: Env, s: State, pending: set<int>, clock: int -> int, slot: Slot)
    requires Settled(env, s) && pending <= s.collisions && slot in s.triedTable
    ensures s.triedTable[slot] in s.info && slot in ResolveFrom(env, s, pending, clock).triedTable
    ensures ResolveFrom(env, s, pending, clock).triedTable[slot] == s.triedTable[slot]
      || Challenged(env, s, pending, clock, slot, s.triedTable[slot])
    decreases |pending|
  {
    hide Inv, CollisionsOk, Untried, ResolveOne, TriedSlot, Evolves, TimesOk, Stale, SameStats;
    TriedLives(env, s, slot);
    SlotStays(env, s, pending, clock, slot);
    if pending != {} {
      var id := Least(pending);
      var now := clock(id);
      var t := ResolveOne(env, s, id, now);
      ResolveOneStats(env, s, id, now);
      OneStepSlot(env, s, id, now, slot);
      if t.triedTable[slot] == s.triedTable[slot] {
        var rest := pending - {id};
        assert rest <= t.collisions;
        EvictedOnlyIfStale(env, t, rest, clock, slot);
        SameOccupant(env, s, t, id, slot);
        if Challenged(env, t, rest, clock, slot, t.triedTable[slot]) {
          StillChallenged(env, s, t, id, pending, clock, slot, s.triedTable[slot]);
        }
      }
    }
  }

  lemma {:induction false} SlotStays(env: Env, s: State, pending: set<int>, clock: int -> int, slot: Slot)
    requires Settled(env, s) && slot in s.triedTable
    ensures slot in ResolveFrom(env, s, pending, clock).triedTable
  {
    hide Inv, CollisionsOk, Untried, ResolveFrom, TimesOk;
    ResolveKeeps(env, s, pending, clock, false);
  }

  lemma {:induction false} TriedLives(env: Env, s: State, slot: Slot)
    requires Settled(env, s) && slot in s.triedTable
    ensures s.triedTable[slot] in s.info
  {
    hide NewOk, CountsOk, MapsOk, RandomOk, AddressesOk, LiveOk, TriedSlot, CollisionsOk, Untried;
  }

  lemma {:induction false} StillChallenged(env: Env, s: State, t: State, id: int, pending: set<int>, clock: int -> int, slot: Slot, x: int)
    requires x in s.info && x in t.info && SameStats(s.info[x], t.info[x]) && t.key == s.key
    requires forall y :: y in t.info && y != id ==> y in s.info && SameStats(s.info[y], t.info[y])
    requires Challenged(env, t, pending - {id}, clock, slot, x)
    ensures Challenged(env, s, pending, clock, slot, x)
  {
    hide TriedSlot;
    var w :| w in pending - {id} && w in t.info && WantedSlot(env, t, w) == slot && Stale(t.info[x], t.info[w], clock(w));
    assert w in pending && w in s.info && SameStats(s.info[w], t.info[w]);
    assert WantedSlot(env, s, w) == slot;
  }

  lemma {:induction false} OthersWait(env: Env, s: State, pending: set<int>, clock: int -> int, w: int)
    requires Settled(env, s) && pending <= s.collisions && w !in pending
    ensures w in ResolveFrom(env, s, pending, clock).collisions <==> w in s.collisions
    decreases |pending|
  {
    hide Inv, CollisionsOk, Untried, ResolveOne, TriedSlot, Evolves, TimesOk, Stale, SameStats;
    if pending != {} {
      var id := Least(pending);
      var t := ResolveOne(env, s, id, clock(id));
      ResolveOneStats(env, s, id, clock(id));
      OneStepWaiting(env, s, id, clock(id));
      OthersWait(env, t, pending - {id}, clock, w);
    }
  }

  lemma {:induction false} OneStepWaiting(env: Env, s: State, id: int, now: int)
    requires Settled(env, s) && id in s.collisions
    ensures forall w :: w != id ==> (w in ResolveOne(env, s, id, now).collisions <==> w in s.collisions)
  {
    hide NewOk, TriedOk, CountsOk, MapsOk, RandomOk, AddressesOk, LiveOk, TriedSlot, ResolveOne, CollisionsOk, Untried, Stale;
    if id in s.info {
      ResolvedExact(env, s, id, now);
    } else {
      DeadForgotten(env, s, id, now);
    }
  }

  /** Nobody else who is alive waits for the slot of id. */
  ghost predicate Sole(env: Env, s: State, pending: set<int>, id: int)
    requires id in s.info
  {
    forall w :: w in pending && w in s.info && w != id ==> WantedSlot(env, s, w) != WantedSlot(env, s, id)
  }

  /** The other half: an entry that alone waits for its slot, and survives, has the slot in the end exactly if the
      occupant was stale, and waits on exactly if nothing was decided, by what was recorded at the start. */
  lemma {:induction false} SoleDecided(env: Env, s: State, pending: set<int>, clock: int -> int, id: int)
    requires Settled(env, s) && pending <= s.collisions && id in pending && id in s.info && Sole(env, s, pending, id)
    ensures var slot := WantedSlot(env, s, id); var t := ResolveFrom(env, s, pending, clock);
      && slot in s.triedTable && s.triedTable[slot] in s.info && slot in t.triedTable
      && (id in t.info ==>
        && (t.triedTable[slot] == id <==> Stale(s.info[s.triedTable[slot]], s.info[id], clock(id)))
        && (id in t.collisions <==> Undecided(s.info[s.triedTable[slot]], s.info[id], clock(id))))
    decreases |pending|
  {
    hide Inv, CollisionsOk, Untried, ResolveOne, TriedSlot, Evolves, TimesOk, Stale, Undecided, SameStats, NewSlot, Without;
    var slot := WantedSlot(env, s, id);
    Occupied(env, s, id);
    var first := Least(pending);
    var t := ResolveOne(env, s, first, clock(first));
    var rest := pending - {first};
    ResolveOneStats(env, s, first, clock(first));
    OneStepWaiting(env, s, first, clock(first));
    OneStepSlot(env, s, first, clock(first), slot);
    EvictedOnlyIfStale(env, t, rest, clock, slot);
    if first == id {
      ResolvedExact(env, s, id, clock(id));
      assert !Challenged(env, t, rest, clock, slot, t.triedTable[slot]) by {
        Unchallenged(env, s, t, pending, clock, id);
      }
      OthersWait(env, t, rest, clock, id);
    } else {
      SameOccupant(env, s, t, first, slot);
      if id in t.info {
        StatsDecide(env, s, t, slot, id, clock(id));
        SoleStays(env, s, t, pending, first, id);
        SoleDecided(env, t, rest, clock, id);
      } else {
        StaysDead(env, s, t, rest, clock, id);
      }
    }
  }

  lemma {:induction false} Unchallenged(env: Env, s: State, t: State, pending: set<int>, clock: int -> int, id: int)
    requires id in s.info && Sole(env, s, pending, id) && t.key == s.key
    requires forall x :: x in t.info && x != id ==> x in s.info && SameStats(s.info[x], t.info[x])
    requires var slot := WantedSlot(env, s, id); slot in t.triedTable && t.triedTable[slot] in t.info
    ensures var slot := WantedSlot(env, s, id); !Challenged(env, t, pending - {id}, clock, slot, t.triedTable[slot])
  {
    hide TriedSlot, Stale;
    var slot := WantedSlot(env, s, id);
    forall w | w in pending - {id} && w in t.info ensures WantedSlot(env, t, w) != slot {
      assert SameStats(s.info[w], t.info[w]);
      assert WantedSlot(env, s, w) != slot;
    }
  }

  lemma {:induction false} StatsDecide(env: Env, s: State, t: State, slot: Slot, id: int, now: int)
    requires slot in s.triedTable && slot in t.triedTable && t.triedTable[slot] == s.triedTable[slot] && t.key == s.key
    requires var x := s.triedTable[slot]; x in s.info && x in t.info && SameStats(s.info[x], t.info[x])
    requires id in s.info && id in t.info && SameStats(s.info[id], t.info[id])
    ensures var x := s.triedTable[slot];
      && (Stale(t.info[x], t.info[id], now) <==> Stale(s.info[x], s.info[id], now))
      && (Undecided(t.info[x], t.info[id], now) <==> Undecided(s.info[x], s.info[id], now))
    ensures WantedSlot(env, t, id) == WantedSlot(env, s, id)
  {
    hide TriedSlot;
  }

  lemma {:induction false} SoleStays(env: Env, s: State, t: State, pending: set<int>, first: int, id: int)
    requires id in s.info && id in t.info && id != first && Sole(env, s, pending, id) && t.key == s.key
    requires forall x :: x in t.info && x != first ==> x in s.info && SameStats(s.info[x], t.info[x])
    ensures Sole(env, t, pending - {first}, id)
  {
    hide TriedSlot;
    assert SameStats(s.info[id], t.info[id]);
    forall w | w in pending - {first} && w in t.info && w != id ensures WantedSlot(env, t, w) != WantedSlot(env, t, id) {
      assert SameStats(s.info[w], t.info[w]);
      assert WantedSlot(env, s, w) != WantedSlot(env, s, id);
    }
  }

  lemma {:induction false} StaysDead(env: Env, s: State, t: State, pending: set<int>, clock: int -> int, id: int)
    requires Settled(env, s) && Settled(env, t) && id in s.info && id !in t.info && s.idCount <= t.idCount
    ensures id !in ResolveFrom(env, t, pending, clock).info
  {
    hide NewOk, TriedOk, CountsOk, RandomOk, AddressesOk, LiveOk, TriedSlot, CollisionsOk, Untried, ResolveFrom, TimesOk;
    IdBelow(s, id);
    ResolveKeeps(env, t, pending, clock, false);
  }

  /** In every run from construction the waiting ids are settled, so both halves hold of every resolution. */
  lemma {:induction false} ReachableSettled(env: Env, key: Key, ops: seq<Op>)
    ensures Consistent(env, Empty(key))
    ensures Settled(env, Run(env, Empty(key), ops))
  {
    hide Inv, CollisionsOk, Untried, Run, Evolves, TimesOk;
    EmptyConsistent(env, key);
    EmptyUntried(key);
    RunUntried(env, Empty(key), ops);
    RunKeeps(env, Empty(key), ops);
  }
}

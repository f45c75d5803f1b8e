/** The ids that wait for their tried slot: in every run they are still in the new table, and the slot they wait
    for is held by another entry. */
module AddrManWaiting {
  import opened Options
  import opened AddrManState
  import opened AddrManInvariant
  import opened AddrManOps
  import opened AddrManRun
  import opened AddrManEffects

  /** No waiting id that is alive is in the tried table itself. */
  ghost predicate Untried(s: State) {
    forall id :: id in s.collisions && id in s.info ==> !s.info[id].inTried
  }

  /** It suffices to look at the tables: no new id waits, and whoever entered the tried table was not waiting. */
  lemma {:induction false} UntriedFollows(env: Env, s: State, t: State)
    requires Consistent(env, s) && Untried(s) && TriedOk(env, t) && Evolves(s, t)
    requires forall id :: id in t.collisions ==> id in s.collisions || (id < s.idCount && id !in Values(t.triedTable))
    requires forall id :: id in s.collisions && id in t.collisions && id in Values(t.triedTable) ==> id in Values(s.triedTable)
    ensures Untried(t)
  {
    hide TriedSlot, Values;
    forall id | id in t.collisions && id in t.info ensures !t.info[id].inTried {
      TriedValues(env, t, id);
      if id in s.collisions {
        assert id in s.info;
        TriedValues(env, s, id);
      }
    }
  }

  /** What Good does to the waiting ids. */
  lemma {:induction false} GoodCollisions(env: Env, s: State, a: Service, testBeforeEvict: bool, time: int)
    requires Inv(env, s, {}, {})
    ensures var (t, promoted) := Good(env, s, a, testBeforeEvict, time);
      && (Find(s, a).None? || promoted ==> t.collisions == s.collisions)
      && (Find(s, a).Some? ==>
        var id := Find(s, a).value;
        t.collisions == s.collisions || (t.collisions == s.collisions + {id} && testBeforeEvict && !s.info[id].inTried))
  {
    hide NewOk, TriedOk, CountsOk, MapsOk, RandomOk, AddressesOk, LiveOk, MakeTried, TriedSlot;
    GoodEffect(env, s, a, testBeforeEvict, time);
  }

  lemma {:induction false} ValuesPut(table: map<Slot, int>, slot: Slot, id: int, x: int)
    ensures x in Values(table[slot := id]) ==> x == id || x in Values(table)
  {
  }

  lemma {:induction false} GoodUntried(env: Env, s: State, a: Service, time: int)
    requires Consistent(env, s) && Untried(s)
    ensures Untried(Good(env, s, a, true, time).0)
  {
    hide NewOk, CountsOk, MapsOk, RandomOk, AddressesOk, LiveOk, TriedOk, Untried, Values, TimesOk, Good, TriedSlot;
    GoodKeeps(env, s, a, true, time);
    GoodEffect(env, s, a, true, time);
    GoodCollisions(env, s, a, true, time);
    var (t, promoted) := Good(env, s, a, true, time);
    if Find(s, a).Some? {
      FoundIs(s, a);
      var id, slot := Find(s, a).value, TriedSlot(env, s.key, a);
      TriedValues(env, s, id);
      IdBelow(s, id);
      forall x | x in s.collisions && x in t.collisions && x in Values(t.triedTable) ensures x in Values(s.triedTable) {
        ValuesPut(s.triedTable, slot, id, x);
      }
    }
    UntriedFollows(env, s, t);
  }

  lemma {:induction false} IdBelow(s: State, id: int)
    requires MapsOk(s) && id in s.info
    ensures id < s.idCount
  {
  }

  lemma {:induction false} FewerUntried(s: State, fewer: set<int>)
    requires Untried(s) && fewer <= s.collisions
    ensures Untried(s.(collisions := fewer))
  {
  }

  lemma {:induction false} ReplaceUntried(env: Env, s: State, id: int, now: int)
    requires Consistent(env, s) && Untried(s) && Judge(env, s, id, now) == Replace
    ensures Untried(ResolveOne(env, s, id, now))
  {
    hide NewOk, CountsOk, MapsOk, RandomOk, AddressesOk, LiveOk, TriedOk, Untried, Values, TimesOk, Good, TriedSlot;
    ResolveOneKeeps(env, s, id, now);
    var a := s.info[id].service;
    FoundAt(s, id);
    GoodEffect(env, s, a, false, now);
    GoodCollisions(env, s, a, false, now);
    var t := ResolveOne(env, s, id, now);
    forall x | x in s.collisions && x in t.collisions && x in Values(t.triedTable) ensures x in Values(s.triedTable) {
      ValuesPut(s.triedTable, TriedSlot(env, s.key, a), id, x);
    }
    UntriedFollows(env, s, t);
  }

  lemma {:induction false} ResolveUntried(env: Env, s: State, pending: set<int>, clock: int -> int)
    requires Consistent(env, s) && Untried(s)
    ensures Untried(ResolveFrom(env, s, pending, clock))
    decreases |pending|
  {
    hide NewOk, CountsOk, MapsOk, RandomOk, AddressesOk, LiveOk, TriedOk, CollisionsOk, Untried, Good, Judge, Evolves, TimesOk;
    if pending != {} {
      var id := Least(pending);
      ResolveOneKeeps(env, s, id, clock(id));
      var t := ResolveOne(env, s, id, clock(id));
      match Judge(env, s, id, clock(id)) {
        case Wait =>
        case Forget => FewerUntried(s, s.collisions - {id});
        case Replace => ReplaceUntried(env, s, id, clock(id));
      }
      ResolveUntried(env, t, pending - {id}, clock);
    }
  }

  /** A step that leaves the tried table alone and lets nobody wait. */
  lemma {:induction false} SameUntried(env: Env, s: State, t: State)
    requires Consistent(env, s) && Untried(s) && Inv(env, t, {}, {}) && Evolves(s, t)
    requires t.triedTable == s.triedTable && t.collisions <= s.collisions
    ensures Untried(t)
  {
    hide NewOk, CountsOk, MapsOk, RandomOk, AddressesOk, LiveOk, TriedOk, Untried, Values, CollisionsOk;
    UntriedFollows(env, s, t);
  }

  lemma {:induction false} StepUntried(env: Env, s: State, op: Op)
    requires Consistent(env, s) && Untried(s)
    ensures Untried(Step(env, s, op))
  {
    hide Inv, CollisionsOk, Untried, Good, AddAll, GetAddr, ResolveFrom, Evolves, TimesOk;
    match op
    case OpAdd(offers, source, penalty) =>
      AddAllKeeps(env, s, offers, source, penalty);
      SameUntried(env, s, Step(env, s, op));
    case OpGood(a, time) => GoodUntried(env, s, a, time);
    case OpResolveCollisions(clock) => ResolveUntried(env, s, s.collisions, clock);
    case OpGetAddr(maxAddresses, maxPct, network, draws, now) =>
      GetAddrSelects(env, s, maxAddresses, maxPct, network, draws, now);
      SameUntried(env, s, Step(env, s, op));
    case _ =>
      StepKeeps(env, s, op);
      SameUntried(env, s, Step(env, s, op));
  }

  lemma {:induction false} RunUntried(env: Env, s: State, ops: seq<Op>)
    requires Consistent(env, s) && Untried(s)
    ensures Untried(Run(env, s, ops))
    decreases |ops|
  {
    hide Consistent, Untried, Step;
    if ops != [] {
      StepKeeps(env, s, ops[0]);
      StepUntried(env, s, ops[0]);
      RunUntried(env, Step(env, s, ops[0]), ops[1..]);
    }
  }

  /** In every run from construction, an entry that waits for its tried slot is still in the new table, and the
      slot is held by another entry of the tried table: resolving never meets a free slot or an entry in its own
      way, and the entry reported for a test is not the one that waits. */
  lemma {:induction false} WaitingCollides(env: Env, key: Key, ops: seq<Op>, id: int)
    ensures Consistent(env, Empty(key))
    ensures var s := Run(env, Empty(key), ops);
      id in s.collisions && id in s.info ==>
        && !s.info[id].inTried && s.info[id].refCount > 0
        && Consistent(env, s)
        && SelectTriedCollision(env, s, id).1.Some?
        && var other := SelectTriedCollision(env, s, id).1.value;
          && other != id && other in s.info && s.info[other].inTried
          && TriedSlot(env, key, s.info[other].service) == TriedSlot(env, key, s.info[id].service)
  {
    hide NewOk, CountsOk, MapsOk, RandomOk, AddressesOk, LiveOk, Untried, Run, TriedSlot, TimesOk;
    EmptyConsistent(env, key);
    EmptyUntried(key);
    RunUntried(env, Empty(key), ops);
    RunKeeps(env, Empty(key), ops);
    var s := Run(env, Empty(key), ops);
    if id in s.collisions && id in s.info {
      UntriedAt(s, id);
      NotIdle(s, id);
      SelectTriedCollisionSafe(env, s, id);
    }
  }

  lemma {:induction false} EmptyUntried(key: Key)
    ensures Untried(Empty(key))
  {
  }

  lemma {:induction false} UntriedAt(s: State, id: int)
    requires Untried(s) && id in s.collisions && id in s.info
    ensures !s.info[id].inTried
  {
  }
}

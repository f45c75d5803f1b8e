/** Every run of the address manager: the public operations as steps of a state machine. */
module AddrManRun {
  import opened Options
  import opened AddrManState
  import opened AddrManInvariant
  import opened AddrManOps

  // ---------- what holds from one state to any later one ----------

  /** Ids are never reused, an id keeps its address, and an occupied tried slot stays occupied. */
  ghost predicate Evolves(s: State, t: State) {
    && t.key == s.key
    && s.idCount <= t.idCount
    && (forall id :: id in t.info && id < s.idCount ==> id in s.info && t.info[id].service == s.info[id].service)
    && (forall slot :: slot in s.triedTable ==> slot in t.triedTable)
  }

  lemma {:induction false} EvolvesTransitive(s: State, t: State, u: State)
    requires Evolves(s, t) && Evolves(t, u)
    ensures Evolves(s, u)
  {
  }

  lemma {:induction false} CollisionsFollow(env: Env, s: State, t: State)
    requires CollisionsOk(env, s) && Evolves(s, t) && t.collisions <= s.collisions
    ensures CollisionsOk(env, t)
  {
  }

  lemma {:induction false} KeptEvolves(s: State, t: State)
    requires Kept(s, t) && forall slot :: slot in s.triedTable ==> slot in t.triedTable
    ensures Evolves(s, t)
  {
  }

  /** Times stay in order while the tried table is unchanged and only fresh entries appear. */
  lemma {:induction false} TimesFollow(env: Env, s: State, t: State)
    requires TimesOk(s) && TriedOk(env, s) && TriedOk(env, t) && t.triedTable == s.triedTable
    requires forall id :: id in t.info ==>
      (id in s.info && t.info[id].lastTry == s.info[id].lastTry && t.info[id].lastSuccess == s.info[id].lastSuccess)
      || (id !in s.info && t.info[id].lastTry == 0 && t.info[id].lastSuccess == 0)
    ensures TimesOk(t)
  {
    forall id | id in t.info && t.info[id].inTried ensures id in s.info && s.info[id].inTried {
      var slot := TriedSlot(env, t.key, t.info[id].service);
      assert slot in t.triedTable && t.triedTable[slot] == id;
      assert slot in s.triedTable && s.triedTable[slot] == id;
    }
  }

  /** A step that keeps everything and does not touch the tried table. */
  ghost predicate Quiet(env: Env, s: State, t: State) {
    && Inv(env, t, {}, {}) && Evolves(s, t)
    && t.collisions == s.collisions && t.triedTable == s.triedTable
    && (TimesOk(s) ==> TimesOk(t))
  }

  lemma {:induction false} QuietTransitive(env: Env, s: State, t: State, u: State)
    requires Quiet(env, s, t) && Quiet(env, t, u)
    ensures Quiet(env, s, u)
  {
    hide Inv, TimesOk;
    EvolvesTransitive(s, t, u);
  }

  // ---------- Add ----------

  lemma {:induction false} KeptQuiet(env: Env, s: State, t: State)
    requires TriedOk(env, s) && Inv(env, t, {}, {}) && Kept(s, t) && t.triedTable == s.triedTable
    ensures Quiet(env, s, t)
  {
    hide NewOk, TriedOk, CountsOk, MapsOk, RandomOk, AddressesOk, LiveOk;
    KeptEvolves(s, t);
    if TimesOk(s) {
      TimesFollow(env, s, t);
    }
  }

  lemma {:induction false} SetInfoQuiet(env: Env, s: State, id: int, i: AddrInfo)
    requires Inv(env, s, {}, {}) && id in s.info && SamePlace(s.info[id], i)
    requires i.lastTry == s.info[id].lastTry && i.lastSuccess == s.info[id].lastSuccess
    ensures Quiet(env, s, SetInfo(s, id, i))
  {
    hide NewOk, TriedOk, CountsOk, MapsOk, RandomOk, AddressesOk, LiveOk;
    SetInfoKeeps(env, s, id, i, {});
  }

  lemma {:induction false} StoreNewQuiet(env: Env, s: State, id: int, source: nat, now: int, idle: set<int>)
    requires Inv(env, s, {}, idle) && id in s.info && !s.info[id].inTried
    requires idle <= {id} && s.info[id].refCount < NEW_BUCKETS_PER_ADDRESS
    ensures Quiet(env, s, StoreNew(env, s, id, source, now, idle).0)
  {
    hide NewOk, TriedOk, CountsOk, MapsOk, RandomOk, AddressesOk, LiveOk, StoreNew;
    StoreNewKeeps(env, s, id, source, now, idle);
    KeptQuiet(env, s, StoreNew(env, s, id, source, now, idle).0);
  }

  lemma {:induction false} RefCountBound(env: Env, s: State, id: int)
    requires NewOk(env, s) && id in s.info
    ensures s.info[id].refCount <= NEW_BUCKETS_PER_ADDRESS
  {
  }

  lemma {:induction false} AddKnownKeeps(env: Env, s: State, o: Offer, id: int, source: nat, penalty: int)
    requires Inv(env, s, {}, {}) && id in s.info
    ensures Quiet(env, s, AddKnown(env, s, o, id, source, penalty).0)
  {
    hide NewOk, TriedOk, CountsOk, MapsOk, RandomOk, AddressesOk, LiveOk, StoreNew, Quiet;
    var i := Refresh(s.info[id], o.addr, penalty, o.now);
    var s1 := SetInfo(s, id, i);
    SetInfoKeeps(env, s, id, i, {});
    SetInfoQuiet(env, s, id, i);
    RefCountBound(env, s, id);
    if !i.inTried && i.refCount != NEW_BUCKETS_PER_ADDRESS {
      StoreNewQuiet(env, s1, id, source, o.terribleNow, {});
      QuietTransitive(env, s, s1, StoreNew(env, s1, id, source, o.terribleNow, {}).0);
    }
  }

  /** Before it has a slot a new entry is not yet consistent, but nothing old has changed. */
  lemma {:induction false} AnnounceEvolves(env: Env, s: State, o: Offer, source: nat, penalty: int)
    requires MapsOk(s) && TriedOk(env, s) && TriedOk(env, Announce(env, s, o, source, penalty))
    ensures Evolves(s, Announce(env, s, o, source, penalty))
    ensures TimesOk(s) ==> TimesOk(Announce(env, s, o, source, penalty))
  {
    assert s.idCount !in s.info;
    if TimesOk(s) {
      TimesFollow(env, s, Announce(env, s, o, source, penalty));
    }
  }

  lemma {:induction false} AddUnknownKeeps(env: Env, s: State, o: Offer, source: nat, penalty: int)
    requires Inv(env, s, {}, {}) && Find(s, o.addr.service).None? && Routable(env, o.addr.service.ip)
    ensures Inv(env, Announce(env, s, o, source, penalty), {}, {s.idCount})
    ensures Quiet(env, s, StoreNew(env, Announce(env, s, o, source, penalty), s.idCount, source, o.terribleNow, {s.idCount}).0)
  {
    hide NewOk, TriedOk, CountsOk, MapsOk, RandomOk, AddressesOk, LiveOk, StoreNew, TimesOk, Evolves;
    var s1 := Announce(env, s, o, source, penalty);
    AnnounceKeeps(env, s, o, source, penalty);
    AnnounceEvolves(env, s, o, source, penalty);
    StoreNewQuiet(env, s1, s.idCount, source, o.terribleNow, {s.idCount});
    EvolvesTransitive(s, s1, StoreNew(env, s1, s.idCount, source, o.terribleNow, {s.idCount}).0);
  }

  lemma {:induction false} AddSingleKeeps(env: Env, s: State, o: Offer, source: nat, timePenalty: int)
    requires Inv(env, s, {}, {})
    ensures Quiet(env, s, AddSingle(env, s, o, source, timePenalty).0)
  {
    hide NewOk, TriedOk, CountsOk, MapsOk, RandomOk, AddressesOk, LiveOk, StoreNew, AddKnown, Announce;
    if Routable(env, o.addr.service.ip) {
      var penalty := if o.addr.service.ip == source then 0 else timePenalty;
      if Find(s, o.addr.service).Some? {
        AddKnownKeeps(env, s, o, Find(s, o.addr.service).value, source, penalty);
      } else {
        AddUnknownKeeps(env, s, o, source, penalty);
      }
    }
  }

  function AddAll(env: Env, s: State, offers: seq<Offer>, source: nat, penalty: int): State
    requires Inv(env, s, {}, {})
    decreases |offers|
  {
    if offers == [] then s else
      AddSingleKeeps(env, s, offers[0], source, penalty);
      AddAll(env, AddSingle(env, s, offers[0], source, penalty).0, offers[1..], source, penalty)
  }

  /** Whether offer number k, after those before it, was put into a new slot. */
  predicate AddedAt(env: Env, s: State, offers: seq<Offer>, source: nat, penalty: int, k: nat)
    requires Inv(env, s, {}, {}) && k < |offers|
  {
    AddAllKeeps(env, s, offers[..k], source, penalty);
    AddSingle(env, AddAll(env, s, offers[..k], source, penalty), offers[k], source, penalty).1
  }

  lemma {:induction false} AddAllMore(env: Env, s: State, offers: seq<Offer>, source: nat, penalty: int, n: nat)
    requires Inv(env, s, {}, {}) && n < |offers|
    ensures Inv(env, AddAll(env, s, offers[..n], source, penalty), {}, {})
    ensures AddAll(env, s, offers[..n + 1], source, penalty)
      == AddSingle(env, AddAll(env, s, offers[..n], source, penalty), offers[n], source, penalty).0
    decreases n
  {
    hide Inv, AddSingle;
    AddAllKeeps(env, s, offers[..n], source, penalty);
    if n == 0 {
      assert offers[..1][0] == offers[0] && offers[..1][1..] == [] && offers[..0] == [];
    } else {
      AddSingleKeeps(env, s, offers[0], source, penalty);
      var t := AddSingle(env, s, offers[0], source, penalty).0;
      AddAllMore(env, t, offers[1..], source, penalty, n - 1);
      assert offers[..n][0] == offers[0] && offers[..n][1..] == offers[1..][..n - 1];
      assert offers[..n + 1][0] == offers[0] && offers[..n + 1][1..] == offers[1..][..n];
    }
  }

  lemma {:induction false} AddAllKeeps(env: Env, s: State, offers: seq<Offer>, source: nat, penalty: int)
    requires Inv(env, s, {}, {})
    ensures Quiet(env, s, AddAll(env, s, offers, source, penalty))
    decreases |offers|
  {
    if offers != [] {
      hide Inv, AddSingle, TimesOk, Evolves;
      AddSingleKeeps(env, s, offers[0], source, penalty);
      var t := AddSingle(env, s, offers[0], source, penalty).0;
      AddAllKeeps(env, t, offers[1..], source, penalty);
      QuietTransitive(env, s, t, AddAll(env, s, offers, source, penalty));
    }
  }

  // ---------- Good ----------

  /** A step that keeps everything, the order of times included if its own time is in order. */
  ghost predicate Sound(env: Env, s: State, t: State, timely: bool) {
    && Consistent(env, t) && Evolves(s, t)
    && (TimesOk(s) && timely ==> TimesOk(t))
  }

  lemma {:induction false} SoundTransitive(env: Env, s: State, t: State, u: State, timely: bool)
    requires Sound(env, s, t, timely) && Sound(env, t, u, timely)
    ensures Sound(env, s, u, timely)
  {
    hide Consistent, TimesOk;
    EvolvesTransitive(s, t, u);
  }

  lemma {:induction false} QuietSound(env: Env, s: State, t: State, timely: bool)
    requires Consistent(env, s) && Quiet(env, s, t)
    ensures Sound(env, s, t, timely)
  {
    hide Inv, TimesOk;
    CollisionsFollow(env, s, t);
  }

  lemma {:induction false} SucceedEvolves(s: State, id: int, time: int)
    requires id in s.info
    ensures Evolves(s, Succeed(s, id, time))
    ensures TimesOk(s) && time > 0 ==> TimesOk(Succeed(s, id, time))
  {
  }

  lemma {:induction false} MakeTriedEvolves(env: Env, s: State, id: int)
    requires Inv(env, s, {}, {}) && id in s.info && !s.info[id].inTried
    ensures Evolves(s, MakeTried(env, s, id))
    ensures TimesOk(s) && s.info[id].lastSuccess > 0 ==> TimesOk(MakeTried(env, s, id))
  {
    hide NewOk, CountsOk, MapsOk, RandomOk, AddressesOk, LiveOk, MakeTried, TriedBucket, Position;
    MakeTriedKeeps(env, s, id);
    var t := MakeTried(env, s, id);
    KeptEvolves(s, t);
    if TimesOk(s) && s.info[id].lastSuccess > 0 {
      MakeTriedTimes(env, s, id, t);
    }
  }

  lemma {:induction false} MakeTriedTimes(env: Env, s: State, id: int, t: State)
    requires TimesOk(s) && TriedOk(env, s) && TriedOk(env, t) && Kept(s, t)
    requires id in s.info && s.info[id].lastSuccess > 0
    requires t.triedTable == s.triedTable[TriedSlot(env, s.key, s.info[id].service) := id]
    ensures TimesOk(t)
  {
    forall x | x in t.info && t.info[x].inTried ensures x == id || (x in s.info && s.info[x].inTried) {
      var slot := TriedSlot(env, t.key, t.info[x].service);
      assert slot in t.triedTable && t.triedTable[slot] == x;
      if x != id {
        assert slot in s.triedTable && s.triedTable[slot] == x;
      }
    }
    forall x | x in t.info
      ensures t.info[x].lastTry >= 0 && t.info[x].lastSuccess >= 0 && (t.info[x].inTried ==> t.info[x].lastSuccess != 0)
    {
      assert SameStats(s.info[x], t.info[x]);
    }
  }

  lemma {:induction false} MakeTriedSound(env: Env, s: State, id: int)
    requires Consistent(env, s) && id in s.info && !s.info[id].inTried
    ensures Sound(env, s, MakeTried(env, s, id), s.info[id].lastSuccess > 0)
  {
    hide Inv, Evolves, TimesOk, MakeTried, TriedSlot;
    MakeTriedKeeps(env, s, id);
    MakeTriedEvolves(env, s, id);
    CollisionsFollow(env, s, MakeTried(env, s, id));
  }

  lemma {:induction false} SucceedSound(env: Env, s: State, id: int, time: int)
    requires Consistent(env, s) && id in s.info
    ensures Sound(env, s, Succeed(s, id, time), time > 0)
  {
    hide Inv, Evolves, TimesOk;
    SucceedKeeps(env, s, id, time);
    SucceedEvolves(s, id, time);
    CollisionsFollow(env, s, Succeed(s, id, time));
  }

  lemma {:induction false} LastGoodSound(env: Env, s: State, time: int)
    requires Consistent(env, s)
    ensures Sound(env, s, s.(lastGood := time), true)
  {
    hide NewOk, TriedOk, CountsOk, MapsOk, RandomOk, AddressesOk, LiveOk;
    LastGoodRandom(s, time);
    InfoStays(env, s, s.(lastGood := time), {}, {});
    CollisionsFollow(env, s, s.(lastGood := time));
  }

  /** Changing the waiting ids is harmless if those that wait still want an occupied slot. */
  lemma {:induction false} CollisionsSound(env: Env, s: State, waiting: set<int>)
    requires Consistent(env, s)
    requires forall id :: id in waiting && id !in s.collisions ==>
      id in s.info && TriedSlot(env, s.key, s.info[id].service) in s.triedTable
    ensures Sound(env, s, s.(collisions := waiting), true)
  {
    var t := s.(collisions := waiting);
    CollisionsChange(env, s, waiting);
    assert CollisionsOk(env, t) by {
      forall id | id in t.collisions
        ensures id < t.idCount && (id in t.info ==> TriedSlot(env, t.key, t.info[id].service) in t.triedTable) {
        assert id in s.info ==> id < s.idCount;
      }
    }
  }

  lemma {:induction false} CollisionsChange(env: Env, s: State, waiting: set<int>)
    requires Inv(env, s, {}, {})
    ensures Inv(env, s.(collisions := waiting), {}, {})
  {
    hide NewOk, TriedOk, CountsOk, MapsOk, AddressesOk, LiveOk;
    InfoStays(env, s, s.(collisions := waiting), {}, {});
  }

  lemma {:induction false} GoodKeeps(env: Env, s: State, a: Service, testBeforeEvict: bool, time: int)
    requires Consistent(env, s)
    ensures Sound(env, s, Good(env, s, a, testBeforeEvict, time).0, time > 0)
  {
    hide Inv, Evolves, TimesOk, CollisionsOk, MakeTried;
    if Find(s, a).None? {
      LastGoodSound(env, s, time);
    } else {
      var id := Find(s, a).value;
      SucceedSound(env, s, id, time);
      var t := Succeed(s, id, time);
      var i := t.info[id];
      if i.inTried || i.refCount <= 0 {
      } else if testBeforeEvict && TriedSlot(env, t.key, i.service) in t.triedTable {
        var waiting := if |t.collisions| < TRIED_COLLISION_SIZE then t.collisions + {id} else t.collisions;
        CollisionsSound(env, t, waiting);
        SoundTransitive(env, s, t, t.(collisions := waiting), time > 0);
      } else {
        MakeTriedSound(env, t, id);
        SoundTransitive(env, s, t, MakeTried(env, t, id), time > 0);
      }
    }
  }

  // ---------- the rest ----------

  lemma {:induction false} ResolveOneKeeps(env: Env, s: State, id: int, now: int)
    requires Consistent(env, s)
    ensures Sound(env, s, ResolveOne(env, s, id, now), now > 0)
  {
    hide NewOk, CountsOk, MapsOk, RandomOk, AddressesOk, LiveOk, Evolves, TimesOk, CollisionsOk, Good, TriedSlot;
    match Judge(env, s, id, now)
    case Wait => SelfSound(env, s);
    case Forget => CollisionsSound(env, s, s.collisions - {id});
    case Replace =>
      GoodKeeps(env, s, s.info[id].service, false, now);
      var t := Good(env, s, s.info[id].service, false, now).0;
      CollisionsSound(env, t, t.collisions - {id});
      SoundTransitive(env, s, t, t.(collisions := t.collisions - {id}), now > 0);
  }

  lemma {:induction false} SelfSound(env: Env, s: State)
    requires Consistent(env, s)
    ensures Sound(env, s, s, true)
  {
    hide Inv;
  }

  ghost function Least(ids: set<int>): int
    requires ids != {}
    ensures Least(ids) in ids && forall x :: x in ids ==> Least(ids) <= x
  {
    LeastExists(ids);
    var m :| m in ids && forall x :: x in ids ==> m <= x;
    m
  }

  lemma {:induction false} LeastExists(ids: set<int>)
    requires ids != {}
    ensures exists m :: m in ids && forall x :: x in ids ==> m <= x
    decreases |ids|
  {
    if !exists y :: y in ids {
      assert false;
    }
    var y :| y in ids;
    var rest := ids - {y};
    if rest == {} {
      assert ids == {y};
    } else {
      LeastExists(rest);
      var m :| m in rest && forall x :: x in rest ==> m <= x;
      LeastOfTwo(ids, y, m);
    }
  }

  lemma {:induction false} LeastOfTwo(ids: set<int>, y: int, m: int)
    requires y in ids && m in ids && forall x :: x in ids - {y} ==> m <= x
    ensures exists least :: least in ids && forall x :: x in ids ==> least <= x
  {
    var least := if m < y then m else y;
    forall x | x in ids ensures least <= x {
      assert x == y || x in ids - {y};
    }
  }

  /** Goes through the waiting ids in increasing order; `clock` gives the time read for each. */
  ghost function ResolveFrom(env: Env, s: State, pending: set<int>, clock: int -> int): State
    requires Consistent(env, s)
    decreases |pending|
  {
    if pending == {} then s else
      var id := Least(pending);
      ResolveOneKeeps(env, s, id, clock(id));
      ResolveFrom(env, ResolveOne(env, s, id, clock(id)), pending - {id}, clock)
  }

  lemma {:induction false} ResolveKeeps(env: Env, s: State, pending: set<int>, clock: int -> int, timely: bool)
    requires Consistent(env, s)
    requires timely ==> forall id :: clock(id) > 0
    ensures Sound(env, s, ResolveFrom(env, s, pending, clock), timely)
    decreases |pending|
  {
    hide Inv, ResolveOne, Evolves, TimesOk;
    if pending == {} {
      SelfSound(env, s);
    } else {
      var id := Least(pending);
      ResolveOneKeeps(env, s, id, clock(id));
      var t := ResolveOne(env, s, id, clock(id));
      ResolveKeeps(env, t, pending - {id}, clock, timely);
      SoundTransitive(env, s, t, ResolveFrom(env, s, pending, clock), timely);
    }
  }

  /** The entry a waiting id would replace, for a picked id that is still alive; nothing if no id is waiting. */
  function SelectTriedCollision(env: Env, s: State, pick: int): (State, Option<int>)
    requires Consistent(env, s) && (pick in s.collisions || s.collisions == {})
  {
    if s.collisions == {} then (s, None)
    else if pick !in s.info then (s.(collisions := s.collisions - {pick}), None)
    else (s, Some(s.triedTable[TriedSlot(env, s.key, s.info[pick].service)]))
  }

  /** The reported entry is a live tried entry: the table is never read at an empty slot. */
  lemma {:induction false} SelectTriedCollisionSafe(env: Env, s: State, pick: int)
    requires Consistent(env, s) && (pick in s.collisions || s.collisions == {})
    ensures var (t, r) := SelectTriedCollision(env, s, pick);
      && Sound(env, s, t, true)
      && (r.None? <==> s.collisions == {} || pick !in s.info)
      && (r.Some? ==> r.value in s.info && s.info[r.value].inTried)
  {
    if s.collisions == {} {
      SelfSound(env, s);
    } else if pick !in s.info {
      CollisionsSound(env, s, s.collisions - {pick});
    } else {
      var slot := TriedSlot(env, s.key, s.info[pick].service);
      var x := s.triedTable[slot];
      assert x in s.info && s.info[x].inTried;
      SelfSound(env, s);
    }
  }

  lemma {:induction false} SlotTaken(env: Env, s: State, id: int)
    requires Consistent(env, s) && id in s.collisions && id in s.info
    ensures TriedSlot(env, s.key, s.info[id].service) in s.triedTable
    ensures env.valid(s.info[id].service.ip)
  {
  }

  // ---------- GetAddr ----------

  predicate Eligible(env: Env, i: AddrInfo, network: Option<nat>, now: int) {
    (network.None? || env.netClass(i.service.ip) == network.value) && !IsTerrible(i, now)
  }

  /** A random index from n on. */
  function Draw(draws: nat -> nat, n: nat, size: nat): (p: nat)
    requires n < size
    ensures n <= p < size
  {
    draws(n) % (size - n) + n
  }

  /** The selection loop from position n on: shuffles one entry into place n and takes it if eligible. */
  function GetAddrFrom(env: Env, s: State, n: nat, limit: int, draws: nat -> nat, network: Option<nat>, now: int,
                       taken: seq<int>): (State, seq<int>)
    requires RandomOk(s) && n <= |s.random|
    decreases |s.random| - n
  {
    if n == |s.random| || |taken| >= limit then (s, taken) else
      var p := Draw(draws, n, |s.random|);
      SwapRandomKeeps(s, n, p);
      var t := SwapRandom(s, n, p);
      var id := t.random[n];
      GetAddrFrom(env, t, n + 1, limit, draws, network, now,
                  if Eligible(env, t.info[id], network, now) then taken + [id] else taken)
  }

  function Limit(size: nat, maxAddresses: nat, maxPct: nat): nat {
    var byPct := if maxPct != 0 then maxPct * size / 100 else size;
    if maxAddresses != 0 && maxAddresses < byPct then maxAddresses else byPct
  }

  ghost predicate Distinct(ids: seq<int>) {
    forall i, j :: 0 <= i < j < |ids| ==> ids[i] != ids[j]
  }

  /** `taken` is exactly the eligible part of the first n entries of the random order. */
  ghost predicate TakenOk(env: Env, s: State, n: int, network: Option<nat>, now: int, taken: seq<int>) {
    && Distinct(taken)
    && (forall id :: id in taken <==> id in s.info && s.info[id].randomPos < n && Eligible(env, s.info[id], network, now))
  }

  /** Two states that differ only in the random order. */
  ghost predicate Shuffled(s: State, t: State) {
    && RandomOk(t) && |t.random| == |s.random| && t == s.(info := t.info, random := t.random)
    && t.info.Keys == s.info.Keys && (forall id :: id in s.info ==> SameEntry(s.info[id], t.info[id]))
  }

  lemma {:induction false} ShuffledTransitive(s: State, t: State, u: State)
    requires Shuffled(s, t) && Shuffled(t, u)
    ensures Shuffled(s, u)
  {
    hide RandomOk;
  }

  lemma {:induction false} SwapShuffles(s: State, i: int, j: int)
    requires RandomOk(s) && 0 <= i < |s.random| && 0 <= j < |s.random|
    ensures Shuffled(s, SwapRandom(s, i, j))
  {
    hide RandomOk;
    SwapRandomKeeps(s, i, j);
    SwapRandomFrame(s, i, j);
  }

  /** Distinct eligible ids, at most `limit` of them, and all there are if fewer. */
  ghost predicate Selection(env: Env, s: State, limit: int, network: Option<nat>, now: int, ids: seq<int>) {
    && Distinct(ids) && |ids| <= limit
    && (forall id :: id in ids ==> id in s.info && Eligible(env, s.info[id], network, now))
    && (|ids| == limit || forall id :: id in s.info && Eligible(env, s.info[id], network, now) ==> id in ids)
  }

  lemma {:induction false} SelectionStays(env: Env, s: State, t: State, limit: int, network: Option<nat>, now: int, ids: seq<int>)
    requires Shuffled(s, t) && Selection(env, t, limit, network, now, ids)
    ensures Selection(env, s, limit, network, now, ids)
  {
    forall id | id in s.info ensures Eligible(env, s.info[id], network, now) == Eligible(env, t.info[id], network, now) {
      assert SameEntry(s.info[id], t.info[id]);
    }
  }

  lemma {:induction false} SelectionDone(env: Env, s: State, n: int, limit: int, network: Option<nat>, now: int, taken: seq<int>)
    requires RandomOk(s) && TakenOk(env, s, n, network, now, taken) && |taken| <= limit
    requires n == |s.random| || |taken| >= limit
    ensures Selection(env, s, limit, network, now, taken)
  {
  }

  lemma {:induction false} GetAddrTakes(env: Env, s: State, n: nat, limit: int, draws: nat -> nat, network: Option<nat>, now: int,
                                        taken: seq<int>)
    requires RandomOk(s) && n <= |s.random| && |taken| <= limit
    requires TakenOk(env, s, n, network, now, taken)
    ensures var (t, r) := GetAddrFrom(env, s, n, limit, draws, network, now, taken);
      Shuffled(s, t) && Selection(env, s, limit, network, now, r)
    decreases |s.random| - n
  {
    hide RandomOk, TakenOk, Selection, Eligible, SwapRandom, Draw;
    if n == |s.random| || |taken| >= limit {
      SelectionDone(env, s, n, limit, network, now, taken);
    } else {
      var p := Draw(draws, n, |s.random|);
      SwapShuffles(s, n, p);
      var t := SwapRandom(s, n, p);
      TakeOne(env, s, n, p, network, now, taken);
      var id := t.random[n];
      var taken' := if Eligible(env, t.info[id], network, now) then taken + [id] else taken;
      GetAddrTakes(env, t, n + 1, limit, draws, network, now, taken');
      var (u, r) := GetAddrFrom(env, t, n + 1, limit, draws, network, now, taken');
      SelectionStays(env, s, t, limit, network, now, r);
      ShuffledTransitive(s, t, u);
    }
  }

  lemma {:induction false} TakenExtend(env: Env, s: State, t: State, n: int, id: int, network: Option<nat>, now: int, taken: seq<int>)
    requires TakenOk(env, s, n, network, now, taken)
    requires t.info.Keys == s.info.Keys && id in s.info && s.info[id].randomPos >= n
    requires forall x :: x in s.info ==> SameEntry(s.info[x], t.info[x])
    requires forall x :: x in s.info ==> (t.info[x].randomPos < n + 1 <==> x == id || s.info[x].randomPos < n)
    ensures TakenOk(env, t, n + 1, network, now, if Eligible(env, t.info[id], network, now) then taken + [id] else taken)
  {
    forall x | x in s.info ensures Eligible(env, s.info[x], network, now) == Eligible(env, t.info[x], network, now) {
      assert SameEntry(s.info[x], t.info[x]);
    }
  }

  lemma {:induction false} TakeOne(env: Env, s: State, n: nat, p: int, network: Option<nat>, now: int, taken: seq<int>)
    requires RandomOk(s) && n <= p < |s.random| && TakenOk(env, s, n, network, now, taken)
    ensures var t := SwapRandom(s, n, p);
      var id := t.random[n];
      id in t.info && TakenOk(env, t, n + 1, network, now, if Eligible(env, t.info[id], network, now) then taken + [id] else taken)
  {
    hide TakenOk, Eligible;
    SwapRandomFrame(s, n, p);
    var t := SwapRandom(s, n, p);
    var id := s.random[p];
    assert id in s.info && s.info[id].randomPos == p;
    SwapPositions(s, n, p);
    TakenExtend(env, s, t, n, id, network, now, taken);
  }

  lemma {:induction false} SwapPositions(s: State, n: nat, p: int)
    requires RandomOk(s) && n <= p < |s.random|
    ensures var t := SwapRandom(s, n, p);
      && t.random[n] == s.random[p]
      && t.info.Keys == s.info.Keys
      && (forall x :: x in s.info ==> (t.info[x].randomPos < n + 1 <==> x == s.random[p] || s.info[x].randomPos < n))
  {
    var x, y := s.random[n], s.random[p];
    assert x in s.info && s.info[x].randomPos == n;
    assert y in s.info && s.info[y].randomPos == p;
  }

  lemma {:induction false} ShuffledQuiet(env: Env, s: State, t: State)
    requires Inv(env, s, {}, {}) && Shuffled(s, t)
    ensures Quiet(env, s, t)
  {
    hide NewOk, TriedOk, CountsOk, MapsOk, RandomOk, AddressesOk, LiveOk;
    InfoStays(env, s, t, {}, {});
  }

  function GetAddr(env: Env, s: State, maxAddresses: nat, maxPct: nat, network: Option<nat>, draws: nat -> nat, now: int): (State, seq<int>)
    requires Inv(env, s, {}, {})
  {
    GetAddrFrom(env, s, 0, Limit(|s.random|, maxAddresses, maxPct), draws, network, now, [])
  }

  /** The answer is a selection of the allowed size, and only the random order changes. */
  lemma {:induction false} GetAddrSelects(env: Env, s: State, maxAddresses: nat, maxPct: nat, network: Option<nat>, draws: nat -> nat, now: int)
    requires Inv(env, s, {}, {})
    ensures var (t, ids) := GetAddr(env, s, maxAddresses, maxPct, network, draws, now);
      Quiet(env, s, t) && Selection(env, s, Limit(|s.random|, maxAddresses, maxPct), network, now, ids)
  {
    hide NewOk, TriedOk, CountsOk, MapsOk, AddressesOk, LiveOk, Selection, GetAddrFrom;
    GetAddrTakes(env, s, 0, Limit(|s.random|, maxAddresses, maxPct), draws, network, now, []);
    ShuffledQuiet(env, s, GetAddr(env, s, maxAddresses, maxPct, network, draws, now).0);
  }

  // ---------- runs ----------

  /** A call of a public operation with all it takes from outside: clocks, random draws, picks. */
  datatype Op =
    | OpAdd(offers: seq<Offer>, source: nat, penalty: int)
    | OpGood(service: Service, time: int)
    | OpAttempt(service: Service, countFailure: bool, time: int)
    | OpConnected(service: Service, time: int)
    | OpSetServices(service: Service, services: set<nat>)
    | OpResolveCollisions(clock: int -> int)
    | OpSelectTriedCollision(pick: int)
    | OpGetAddr(maxAddresses: nat, maxPct: nat, network: Option<nat>, draws: nat -> nat, now: int)

  ghost function Step(env: Env, s: State, op: Op): State
    requires Consistent(env, s)
  {
    match op
    case OpAdd(offers, source, penalty) => AddAll(env, s, offers, source, penalty)
    case OpGood(a, time) => Good(env, s, a, true, time).0
    case OpAttempt(a, countFailure, time) => Attempt(s, a, countFailure, time)
    case OpConnected(a, time) => Connected(s, a, time)
    case OpSetServices(a, services) => SetServices(s, a, services)
    case OpResolveCollisions(clock) => ResolveFrom(env, s, s.collisions, clock)
    case OpSelectTriedCollision(pick) => if pick in s.collisions then SelectTriedCollision(env, s, pick).0 else s
    case OpGetAddr(maxAddresses, maxPct, network, draws, now) => GetAddr(env, s, maxAddresses, maxPct, network, draws, now).0
  }

  /** Connection times are after the epoch, attempts not before it. */
  ghost predicate Timely(op: Op) {
    match op
    case OpGood(_, time) => time > 0
    case OpAttempt(_, _, time) => time >= 0
    case OpResolveCollisions(clock) => forall id :: clock(id) > 0
    case _ => true
  }

  lemma {:induction false} AttemptKeeps(env: Env, s: State, a: Service, countFailure: bool, time: int)
    requires Consistent(env, s)
    ensures Sound(env, s, Attempt(s, a, countFailure, time), time >= 0)
  {
    hide NewOk, TriedOk, CountsOk, MapsOk, RandomOk, AddressesOk, LiveOk;
    if Find(s, a).Some? {
      var id := Find(s, a).value;
      var t := Attempt(s, a, countFailure, time);
      SetInfoKeeps(env, s, id, t.info[id], {});
      CollisionsFollow(env, s, t);
    }
  }

  lemma {:induction false} ConnectedKeeps(env: Env, s: State, a: Service, time: int)
    requires Consistent(env, s)
    ensures Sound(env, s, Connected(s, a, time), true)
  {
    hide NewOk, TriedOk, CountsOk, MapsOk, RandomOk, AddressesOk, LiveOk;
    if Find(s, a).Some? {
      var id := Find(s, a).value;
      SetInfoQuiet(env, s, id, Connected(s, a, time).info[id]);
      CollisionsFollow(env, s, Connected(s, a, time));
    }
  }

  lemma {:induction false} SetServicesKeeps(env: Env, s: State, a: Service, services: set<nat>)
    requires Consistent(env, s)
    ensures Sound(env, s, SetServices(s, a, services), true)
  {
    hide NewOk, TriedOk, CountsOk, MapsOk, RandomOk, AddressesOk, LiveOk;
    if Find(s, a).Some? {
      var id := Find(s, a).value;
      SetInfoQuiet(env, s, id, SetServices(s, a, services).info[id]);
      CollisionsFollow(env, s, SetServices(s, a, services));
    }
  }

  lemma {:induction false} StepKeeps(env: Env, s: State, op: Op)
    requires Consistent(env, s)
    ensures Sound(env, s, Step(env, s, op), Timely(op))
  {
    hide Inv, CollisionsOk, Evolves, TimesOk, Attempt, Connected, SetServices, Good, SelectTriedCollision, GetAddr, AddAll, ResolveFrom;
    match op
    case OpAdd(offers, source, penalty) =>
      AddAllKeeps(env, s, offers, source, penalty);
      QuietSound(env, s, AddAll(env, s, offers, source, penalty), true);
    case OpGood(a, time) => GoodKeeps(env, s, a, true, time);
    case OpAttempt(a, countFailure, time) => AttemptKeeps(env, s, a, countFailure, time);
    case OpConnected(a, time) => ConnectedKeeps(env, s, a, time);
    case OpSetServices(a, services) => SetServicesKeeps(env, s, a, services);
    case OpResolveCollisions(clock) => ResolveKeeps(env, s, s.collisions, clock, Timely(op));
    case OpSelectTriedCollision(pick) =>
      if pick in s.collisions {
        SelectTriedCollisionSafe(env, s, pick);
      } else {
        SelfSound(env, s);
      }
    case OpGetAddr(maxAddresses, maxPct, network, draws, now) =>
      GetAddrSelects(env, s, maxAddresses, maxPct, network, draws, now);
      QuietSound(env, s, GetAddr(env, s, maxAddresses, maxPct, network, draws, now).0, true);
  }

  ghost function Run(env: Env, s: State, ops: seq<Op>): State
    requires Consistent(env, s)
    decreases |ops|
  {
    if ops == [] then s else
      StepKeeps(env, s, ops[0]);
      Run(env, Step(env, s, ops[0]), ops[1..])
  }

  /** From any consistent state, every run stays consistent; ids are not reused, addresses of ids do not
      change, and occupied tried slots stay occupied. */
  lemma {:induction false} RunKeeps(env: Env, s: State, ops: seq<Op>)
    requires Consistent(env, s)
    ensures Sound(env, s, Run(env, s, ops), forall i :: 0 <= i < |ops| ==> Timely(ops[i]))
    decreases |ops|
  {
    hide Consistent, Evolves, TimesOk, Step, Timely;
    if ops == [] {
      SelfSound(env, s);
    } else {
      StepKeeps(env, s, ops[0]);
      var t := Step(env, s, ops[0]);
      RunKeeps(env, t, ops[1..]);
      var timely := forall i :: 0 <= i < |ops| ==> Timely(ops[i]);
      if timely {
        assert forall i :: 0 <= i < |ops[1..]| ==> Timely(ops[1..][i]);
      }
      SoundTransitive(env, s, t, Run(env, s, ops), timely);
    }
  }

  lemma {:induction false} EmptyConsistent(env: Env, key: Key)
    ensures Consistent(env, Empty(key)) && TimesOk(Empty(key))
  {
    assert forall tried, net :: Members(env, map[], {}, tried, net) == {};
  }

  /** Every state reached from construction is consistent, and its times are in order if the times that
      were passed in are. */
  lemma {:induction false} ReachableConsistent(env: Env, key: Key, ops: seq<Op>)
    ensures Consistent(env, Empty(key))
    ensures Consistent(env, Run(env, Empty(key), ops))
    ensures (forall i :: 0 <= i < |ops| ==> Timely(ops[i])) ==> TimesOk(Run(env, Empty(key), ops))
  {
    hide Inv, CollisionsOk, Evolves, TimesOk, Empty, Timely, Run;
    EmptyConsistent(env, key);
    RunKeeps(env, Empty(key), ops);
  }

  // ---------- when the times stay in order ----------

  /** The exact condition on the time passed to Good. */
  lemma {:induction false} GoodTimesExact(env: Env, s: State, a: Service, testBeforeEvict: bool, time: int)
    requires Consistent(env, s) && TimesOk(s)
    ensures TimesOk(Good(env, s, a, testBeforeEvict, time).0) <==>
      Find(s, a).None? || time > 0 ||
      (time == 0 && !s.info[Find(s, a).value].inTried
                 && testBeforeEvict && TriedSlot(env, s.key, s.info[Find(s, a).value].service) in s.triedTable)
  {
    hide NewOk, CountsOk, MapsOk, RandomOk, AddressesOk, MakeTried, TriedSlot, CollisionsOk;
    GoodKeeps(env, s, a, testBeforeEvict, time);
    if Find(s, a).Some? && time <= 0 {
      var id := Find(s, a).value;
      var t := Succeed(s, id, time);
      SucceedKeeps(env, s, id, time);
      if t.info[id].inTried || t.info[id].refCount <= 0 || (testBeforeEvict && TriedSlot(env, t.key, t.info[id].service) in t.triedTable) {
      } else {
        MakeTriedKeeps(env, t, id);
        var u := MakeTried(env, t, id);
        assert u.info[id].lastSuccess == time;
        TriedIsTried(env, u, TriedSlot(env, t.key, t.info[id].service), id);
      }
    }
  }

  lemma {:induction false} TriedIsTried(env: Env, s: State, slot: Slot, id: int)
    requires TriedOk(env, s) && slot in s.triedTable && s.triedTable[slot] == id
    ensures id in s.info && s.info[id].inTried
  {
  }
}

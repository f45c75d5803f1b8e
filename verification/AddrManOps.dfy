/** The compound operations of the address manager and what each of them keeps. */
module AddrManOps {
  import opened Options
  import opened AddrManState
  import opened AddrManInvariant

  // ---------- what the steps leave alone ----------

  /** Equal in what is known about the peer, as opposed to where the entry is stored. */
  ghost predicate SameStats(i: AddrInfo, j: AddrInfo) {
    && i.service == j.service && i.services == j.services && i.time == j.time && i.source == j.source
    && i.lastTry == j.lastTry && i.lastCountAttempt == j.lastCountAttempt && i.lastSuccess == j.lastSuccess
    && i.attempts == j.attempts
  }

  /** Every entry of t is an entry of s with the same statistics; no id is handed out. */
  ghost predicate Kept(s: State, t: State) {
    && t.key == s.key && t.idCount == s.idCount && t.collisions == s.collisions && t.lastGood == s.lastGood
    && forall id :: id in t.info ==> id in s.info && SameStats(s.info[id], t.info[id])
  }

  lemma {:induction false} KeptTransitive(s: State, t: State, u: State)
    requires Kept(s, t) && Kept(t, u)
    ensures Kept(s, u)
  {
  }

  lemma {:induction false} DeleteFrame(env: Env, s: State, id: int)
    requires RandomOk(s) && id in s.info && !s.info[id].inTried && s.info[id].refCount == 0
    ensures var t := Delete(env, s, id);
      && Kept(s, t) && t.newTable == s.newTable && t.triedTable == s.triedTable
      && t.info.Keys == s.info.Keys - {id}
      && (forall x :: x in t.info ==> SameEntry(s.info[x], t.info[x]))
  {
    SwapToLast(s, id);
    SwapRandomFrame(s, s.info[id].randomPos, |s.random| - 1);
  }

  lemma {:induction false} ClearNewFrame(env: Env, s: State, slot: Slot)
    requires RandomOk(s) && NewOk(env, s)
    ensures var t := ClearNew(env, s, slot);
      && Kept(s, t) && t.newTable == s.newTable - {slot} && t.triedTable == s.triedTable
      && (forall x :: x in s.info && (slot in s.newTable ==> x != s.newTable[slot]) ==>
            x in t.info && SameEntry(s.info[x], t.info[x]))
  {
    hide Position, Delete;
    if slot in s.newTable {
      var t := DropRef(s, slot);
      var id := s.newTable[slot];
      if t.info[id].refCount == 0 {
        DropRefRandom(s, slot);
        DeleteFrame(env, t, id);
      }
    }
  }

  lemma {:induction false} DropRefRandom(s: State, slot: Slot)
    requires RandomOk(s) && slot in s.newTable && s.newTable[slot] in s.info
    ensures RandomOk(DropRef(s, slot))
  {
  }

  // ---------- MakeTried ----------

  /** Moves the occupant of a tried slot back to the new table. */
  function Evict(env: Env, s: State, slot: Slot, ghost limbo: set<int>): State
    requires Inv(env, s, limbo, limbo) && slot in s.triedTable
  {
    LeaveTriedKeeps(env, s, slot, limbo);
    var evicted := s.triedTable[slot];
    var s2 := LeaveTried(env, s, slot);
    var newSlot := NewSlot(env, s.key, s.info[evicted].service, s.info[evicted].source);
    ClearNewKeeps(env, s2, newSlot, limbo + {evicted}, limbo + {evicted});
    ReenterNew(env, ClearNew(env, s2, newSlot), evicted)
  }

  lemma {:induction false} IdleHoldsNoSlot(env: Env, s: State, id: int, slot: Slot)
    requires NewOk(env, s) && id in s.info && s.info[id].refCount == 0 && slot in s.newTable
    ensures s.newTable[slot] != id
  {
    assert slot !in Refs(s.newTable, id);
  }

  lemma {:induction false} EvictKeeps(env: Env, s: State, slot: Slot, limbo: set<int>)
    requires Inv(env, s, limbo, limbo) && slot in s.triedTable
    ensures var t := Evict(env, s, slot, limbo);
      Inv(env, t, limbo, limbo) && Kept(s, t) && t.triedTable == s.triedTable - {slot}
  {
    hide NewOk, TriedOk, CountsOk, MapsOk, RandomOk, AddressesOk, ClearNew, Position, NewBucket, Adjust;
    LeaveTriedKeeps(env, s, slot, limbo);
    var evicted := s.triedTable[slot];
    var s2 := LeaveTried(env, s, slot);
    assert Kept(s, s2);
    var newSlot := NewSlot(env, s.key, s.info[evicted].service, s.info[evicted].source);
    if newSlot in s2.newTable {
      IdleHoldsNoSlot(env, s2, evicted, newSlot);
    }
    ClearNewKeeps(env, s2, newSlot, limbo + {evicted}, limbo + {evicted});
    ClearNewFrame(env, s2, newSlot);
    var s3 := ClearNew(env, s2, newSlot);
    KeptTransitive(s, s2, s3);
    assert SameStats(s2.info[evicted], s3.info[evicted]);
    ReenterNewKeeps(env, s3, evicted, limbo + {evicted});
    assert limbo + {evicted} - {evicted} == limbo;
  }

  /** Moves an entry from the new table to the tried table, evicting the occupant of its slot. */
  function MakeTried(env: Env, s: State, id: int): State
    requires Inv(env, s, {}, {}) && id in s.info && !s.info[id].inTried
  {
    StripNewKeeps(env, s, id);
    var s1 := StripNew(env, s, id);
    var slot := TriedSlot(env, s.key, s.info[id].service);
    var s4 := if slot in s1.triedTable then (EvictKeeps(env, s1, slot, {id}); Evict(env, s1, slot, {id})) else s1;
    EnterTried(env, s4, id)
  }

  lemma {:induction false} MakeTriedKeeps(env: Env, s: State, id: int)
    requires Inv(env, s, {}, {}) && id in s.info && !s.info[id].inTried
    ensures var t := MakeTried(env, s, id);
      && Inv(env, t, {}, {}) && Kept(s, t)
      && t.triedTable == s.triedTable[TriedSlot(env, s.key, s.info[id].service) := id]
      && id in t.info
  {
    hide NewOk, TriedOk, CountsOk, MapsOk, RandomOk, AddressesOk, Evict, TriedBucket, Position;
    StripNewKeeps(env, s, id);
    var s1 := StripNew(env, s, id);
    assert Kept(s, s1);
    var slot := TriedSlot(env, s.key, s.info[id].service);
    if slot in s1.triedTable {
      EvictKeeps(env, s1, slot, {id});
      var s4 := Evict(env, s1, slot, {id});
      KeptTransitive(s, s1, s4);
      assert SameStats(s1.info[id], s4.info[id]);
      EnterTriedKeeps(env, s4, id);
    } else {
      EnterTriedKeeps(env, s1, id);
    }
  }

  // ---------- updates that do not move an entry ----------

  function SetInfo(s: State, id: int, i: AddrInfo): State {
    s.(info := s.info[id := i])
  }

  ghost predicate SamePlace(i: AddrInfo, j: AddrInfo) {
    i.service == j.service && i.refCount == j.refCount && i.inTried == j.inTried && i.randomPos == j.randomPos
  }

  lemma {:induction false} SetInfoRandom(s: State, id: int, i: AddrInfo)
    requires RandomOk(s) && id in s.info && SamePlace(s.info[id], i)
    ensures RandomOk(SetInfo(s, id, i))
  {
  }

  lemma {:induction false} SetInfoKeeps(env: Env, s: State, id: int, i: AddrInfo, idle: set<int>)
    requires Inv(env, s, {}, idle) && id in s.info && SamePlace(s.info[id], i)
    ensures Inv(env, SetInfo(s, id, i), {}, idle)
  {
    hide NewOk, TriedOk, CountsOk, MapsOk, RandomOk, AddressesOk, LiveOk;
    SetInfoRandom(s, id, i);
    InfoStays(env, s, SetInfo(s, id, i), {}, idle);
  }

  // ---------- AddSingle ----------

  function Max(a: int, b: int): int { if a < b then b else a }

  function Pow2(n: int): (p: int)
    ensures p >= 1
    decreases n
  {
    if n <= 0 then 1 else 2 * Pow2(n - 1)
  }

  /** An entry with n references gets another one with chance 1 in 2^n. */
  predicate Lucky(draw: nat, refCount: int) {
    var factor := Pow2(refCount);
    factor <= 1 || draw % factor == 0
  }

  function AddRef(s: State, id: int, slot: Slot): State
    requires id in s.info
  {
    s.(info := s.info[id := s.info[id].(refCount := s.info[id].refCount + 1)],
       newTable := s.newTable[slot := id])
  }

  ghost predicate MayHold(env: Env, s: State, id: int, slot: Slot) {
    && id in s.info && !s.info[id].inTried && s.info[id].refCount < NEW_BUCKETS_PER_ADDRESS
    && 0 <= slot.0 < NEW_BUCKET_COUNT && slot.1 == Position(env, s.key, true, slot.0, s.info[id].service)
  }

  lemma {:induction false} AddRefTable(env: Env, s: State, id: int, slot: Slot)
    requires NewOk(env, s) && MayHold(env, s, id, slot) && slot !in s.newTable
    ensures NewOk(env, AddRef(s, id, slot))
  {
    var t := AddRef(s, id, slot);
    forall x | x in t.info ensures t.info[x].refCount == |Refs(t.newTable, x)| <= NEW_BUCKETS_PER_ADDRESS {
      RefsAdd(s.newTable, slot, id, x);
    }
  }

  lemma {:induction false} AddRefRest(env: Env, s: State, id: int, slot: Slot, idle: set<int>)
    requires NewOk(env, s) && CountsOk(env, s, {}) && LiveOk(s, idle) && MayHold(env, s, id, slot)
    ensures CountsOk(env, AddRef(s, id, slot), {}) && LiveOk(AddRef(s, id, slot), idle - {id})
  {
    CountsStay(env, s, AddRef(s, id, slot), {});
  }

  lemma {:induction false} AddRefKeeps(env: Env, s: State, id: int, slot: Slot, idle: set<int>)
    requires Inv(env, s, {}, idle) && MayHold(env, s, id, slot) && slot !in s.newTable
    ensures Inv(env, AddRef(s, id, slot), {}, idle - {id})
  {
    hide NewOk, TriedOk, CountsOk, MapsOk, RandomOk, AddressesOk, LiveOk;
    AddRefTable(env, s, id, slot);
    AddRefRest(env, s, id, slot, idle);
    TriedStays(env, s, AddRef(s, id, slot));
    EntryUpdate(env, s, AddRef(s, id, slot));
  }

  /** Gives an entry a new slot of the given source, if the occupant may be overwritten; an entry left
      without any slot is deleted. */
  function StoreNew(env: Env, s: State, id: int, source: nat, now: int, ghost idle: set<int>): (State, bool)
    requires Inv(env, s, {}, idle) && id in s.info && !s.info[id].inTried
    requires idle <= {id}
  {
    var i := s.info[id];
    var slot := NewSlot(env, s.key, i.service, source);
    if slot in s.newTable && s.newTable[slot] == id then (s, false)
    else if slot !in s.newTable || Overwritable(s.info, s.newTable[slot], now, i) then
      ClearNewKeeps(env, s, slot, {}, idle);
      ClearNewFrame(env, s, slot);
      (AddRef(ClearNew(env, s, slot), id, slot), true)
    else if i.refCount == 0 then (Delete(env, s, id), false)
    else (s, false)
  }

  predicate Overwritable(info: map<int, AddrInfo>, occupant: int, now: int, i: AddrInfo) {
    occupant in info && (IsTerrible(info[occupant], now) || (info[occupant].refCount > 1 && i.refCount == 0))
  }

  lemma {:induction false} IdleOrNot(s: State, id: int, idle: set<int>)
    requires LiveOk(s, idle) && idle <= {id} && id in s.info && !s.info[id].inTried
    ensures s.info[id].refCount == 0 <==> idle == {id}
    ensures s.info[id].refCount != 0 <==> idle == {}
    ensures idle - {id} == {}
  {
  }

  lemma {:induction false} OverwriteKeeps(env: Env, s: State, id: int, slot: Slot, idle: set<int>)
    requires Inv(env, s, {}, idle) && MayHold(env, s, id, slot)
    requires slot in s.newTable ==> s.newTable[slot] != id
    ensures var c := ClearNew(env, s, slot);
      id in c.info && var t := AddRef(c, id, slot);
      Inv(env, t, {}, idle - {id}) && Kept(s, t) && t.triedTable == s.triedTable
  {
    hide NewOk, TriedOk, CountsOk, MapsOk, RandomOk, AddressesOk, LiveOk, ClearNew, Position;
    ClearNewKeeps(env, s, slot, {}, idle);
    ClearNewFrame(env, s, slot);
    var c := ClearNew(env, s, slot);
    assert SameEntry(s.info[id], c.info[id]);
    AddRefKeeps(env, c, id, slot, idle);
    assert Kept(c, AddRef(c, id, slot));
    KeptTransitive(s, c, AddRef(c, id, slot));
  }

  lemma {:induction false} StoreNewKeeps(env: Env, s: State, id: int, source: nat, now: int, idle: set<int>)
    requires Inv(env, s, {}, idle) && id in s.info && !s.info[id].inTried
    requires idle <= {id} && s.info[id].refCount < NEW_BUCKETS_PER_ADDRESS
    ensures var t := StoreNew(env, s, id, source, now, idle).0;
      Inv(env, t, {}, {}) && Kept(s, t) && t.triedTable == s.triedTable
  {
    hide NewOk, TriedOk, CountsOk, MapsOk, RandomOk, AddressesOk, LiveOk, ClearNew, Delete, AddRef, Position, Overwritable;
    var i := s.info[id];
    var slot := NewSlot(env, s.key, i.service, source);
    IdleOrNot(s, id, idle);
    if slot in s.newTable && s.newTable[slot] == id {
      if i.refCount == 0 {
        IdleHoldsNoSlot(env, s, id, slot);
      }
    } else if slot !in s.newTable || Overwritable(s.info, s.newTable[slot], now, i) {
      OverwriteKeeps(env, s, id, slot, idle);
    } else if i.refCount == 0 {
      DeleteKeeps(env, s, id, {}, idle);
      DeleteFrame(env, s, id);
    }
  }

  /** Takes over the time stamp, if it is new enough, and the services of an announcement. */
  function Refresh(i: AddrInfo, a: Address, penalty: int, now: int): AddrInfo {
    var interval := if now - a.time < 24 * 3600 then 3600 else 24 * 3600;
    i.(time := if i.time < a.time - interval - penalty then Max(0, a.time - penalty) else i.time,
       services := i.services + a.services)
  }

  /** An announced address with the clock readings and the random draw used while it is added. */
  datatype Offer = Offer(addr: Address, now: int, terribleNow: int, draw: nat)

  /** An address that is already known: refresh it, and sometimes give it one more new slot. */
  function AddKnown(env: Env, s: State, o: Offer, id: int, source: nat, penalty: int): (State, bool)
    requires Inv(env, s, {}, {}) && id in s.info
  {
    var i := Refresh(s.info[id], o.addr, penalty, o.now);
    SetInfoKeeps(env, s, id, i, {});
    var s1 := SetInfo(s, id, i);
    if o.addr.time <= i.time || i.inTried || i.refCount == NEW_BUCKETS_PER_ADDRESS ||
       !Lucky(o.draw, i.refCount)
    then (s1, false)
    else StoreNew(env, s1, id, source, o.terribleNow, {})
  }

  function Announce(env: Env, s: State, o: Offer, source: nat, penalty: int): State {
    var s1 := Create(env, s, o.addr, source);
    SetInfo(s1, s.idCount, s1.info[s.idCount].(time := Max(0, o.addr.time - penalty)))
  }

  lemma {:induction false} NotFound(s: State, a: Service)
    requires MapsOk(s) && Find(s, a).None?
    ensures a !in s.ids
  {
  }

  lemma {:induction false} Created(env: Env, s: State, a: Address, source: nat)
    ensures var t := Create(env, s, a, source); s.idCount in t.info && t.info[s.idCount].service == a.service
  {
  }

  lemma {:induction false} AnnounceKeeps(env: Env, s: State, o: Offer, source: nat, penalty: int)
    requires Inv(env, s, {}, {}) && Find(s, o.addr.service).None? && Routable(env, o.addr.service.ip)
    ensures Inv(env, Announce(env, s, o, source, penalty), {}, {s.idCount})
  {
    hide NewOk, TriedOk, CountsOk, MapsOk, RandomOk, AddressesOk, LiveOk, Create;
    NotFound(s, o.addr.service);
    CreateKeeps(env, s, o.addr, source, {});
    assert {} + {s.idCount} == {s.idCount};
    var s1 := Create(env, s, o.addr, source);
    Created(env, s, o.addr, source);
    SetInfoKeeps(env, s1, s.idCount, s1.info[s.idCount].(time := Max(0, o.addr.time - penalty)), {s.idCount});
  }

  function AddSingle(env: Env, s: State, o: Offer, source: nat, timePenalty: int): (State, bool)
    requires Inv(env, s, {}, {})
  {
    if !Routable(env, o.addr.service.ip) then (s, false) else
      var penalty := if o.addr.service.ip == source then 0 else timePenalty;
      if Find(s, o.addr.service).Some? then
        AddKnown(env, s, o, Find(s, o.addr.service).value, source, penalty)
      else
        AnnounceKeeps(env, s, o, source, penalty);
        StoreNew(env, Announce(env, s, o, source, penalty), s.idCount, source, o.terribleNow, {s.idCount})
  }

  // ---------- Good ----------

  /** Notes a successful connection. */
  function Succeed(s: State, id: int, time: int): State
    requires id in s.info
  {
    SetInfo(s.(lastGood := time), id, s.info[id].(lastSuccess := time, lastTry := time, attempts := 0))
  }

  lemma {:induction false} SucceedKeeps(env: Env, s: State, id: int, time: int)
    requires Inv(env, s, {}, {}) && id in s.info
    ensures Inv(env, Succeed(s, id, time), {}, {})
  {
    hide NewOk, TriedOk, CountsOk, MapsOk, RandomOk, AddressesOk, LiveOk;
    InfoStays(env, s, s.(lastGood := time), {}, {}) by { LastGoodRandom(s, time); }
    SetInfoKeeps(env, s.(lastGood := time), id, Succeed(s, id, time).info[id], {});
  }

  lemma {:induction false} LastGoodRandom(s: State, time: int)
    requires RandomOk(s)
    ensures RandomOk(s.(lastGood := time))
  {
  }

  function Good(env: Env, s: State, a: Service, testBeforeEvict: bool, time: int): (State, bool)
    requires Inv(env, s, {}, {})
  {
    if Find(s, a).None? then (s.(lastGood := time), false) else
      var id := Find(s, a).value;
      SucceedKeeps(env, s, id, time);
      var t := Succeed(s, id, time);
      var i := t.info[id];
      if i.inTried || i.refCount <= 0 then (t, false)
      else if testBeforeEvict && TriedSlot(env, t.key, i.service) in t.triedTable then
        (t.(collisions := if |t.collisions| < TRIED_COLLISION_SIZE then t.collisions + {id} else t.collisions), false)
      else (MakeTried(env, t, id), true)
  }

  // ---------- smaller updates ----------

  function Attempt(s: State, a: Service, countFailure: bool, time: int): State {
    if Find(s, a).None? then s else
      var id := Find(s, a).value;
      var i := s.info[id];
      if countFailure && i.lastCountAttempt < s.lastGood
      then SetInfo(s, id, i.(lastTry := time, lastCountAttempt := time, attempts := i.attempts + 1))
      else SetInfo(s, id, i.(lastTry := time))
  }

  function Connected(s: State, a: Service, time: int): State {
    if Find(s, a).None? then s else
      var id := Find(s, a).value;
      var i := s.info[id];
      if time - i.time > 20 * 60 then SetInfo(s, id, i.(time := time)) else s
  }

  function SetServices(s: State, a: Service, services: set<nat>): State {
    if Find(s, a).None? then s else
      var id := Find(s, a).value;
      SetInfo(s, id, s.info[id].(services := services))
  }

  // ---------- tried collisions ----------

  /** What is to be done about one waiting id: give up waiting, wait on, or replace the occupant. */
  datatype Verdict = Forget | Wait | Replace

  function Judge(env: Env, s: State, id: int, now: int): Verdict
    requires TriedOk(env, s)
  {
    if id !in s.info then Forget else
      var i := s.info[id];
      var slot := TriedSlot(env, s.key, i.service);
      if !env.valid(i.service.ip) then Forget
      else if slot !in s.triedTable then Replace
      else
        var occupant := s.info[s.triedTable[slot]];
        if now - occupant.lastSuccess < REPLACEMENT then Forget
        else if now - occupant.lastTry < REPLACEMENT then
          if now - occupant.lastTry > 60 then Replace else Wait
        else if now - i.lastSuccess > TEST_WINDOW then Replace
        else Wait
  }

  function ResolveOne(env: Env, s: State, id: int, now: int): State
    requires Inv(env, s, {}, {})
  {
    match Judge(env, s, id, now)
    case Wait => s
    case Forget => s.(collisions := s.collisions - {id})
    case Replace =>
      var t := Good(env, s, s.info[id].service, false, now).0;
      t.(collisions := t.collisions - {id})
  }
}

/** What adding one address does, exactly: when it gets a slot, what its entry says afterwards, and what happens
    to every other entry. */
module AddrManAdd {
  import opened Options
  import opened AddrManState
  import opened AddrManInvariant
  import opened AddrManOps
  import opened AddrManRun
  import opened AddrManEffects

  /** The announced time counts less if it comes from somebody else. */
  function Penalty(o: Offer, source: nat, timePenalty: int): int {
    if o.addr.service.ip == source then 0 else timePenalty
  }

  /** The time recorded for a known address after an announcement: it moves only if it is old enough. */
  function RefreshedTime(i: AddrInfo, o: Offer, penalty: int): int {
    var interval := if o.now - o.addr.time < 24 * 3600 then 3600 else 24 * 3600;
    if i.time + interval + penalty < o.addr.time then
      if o.addr.time < penalty then 0 else o.addr.time - penalty
    else i.time
  }

  /** The slot is free, or its occupant is worth less than a newcomer: terrible, or (if `spare` counts) also
      stored elsewhere. */
  ghost predicate Available(s: State, slot: Slot, now: int, spare: bool) {
    slot in s.newTable ==>
      var x := s.newTable[slot];
      x in s.info && (IsTerrible(s.info[x], now) || (spare && s.info[x].refCount > 1))
  }

  // ---------- when an address is added ----------

  lemma {:induction false} StoredExact(env: Env, s: State, id: int, source: nat, now: int, idle: set<int>)
    requires Inv(env, s, {}, idle) && id in s.info && !s.info[id].inTried && idle <= {id}
    ensures var slot := NewSlot(env, s.key, s.info[id].service, source);
      StoreNew(env, s, id, source, now, idle).1 <==>
        !(slot in s.newTable && s.newTable[slot] == id) && Available(s, slot, now, s.info[id].refCount == 0)
  {
    hide TriedOk, CountsOk, MapsOk, RandomOk, AddressesOk, LiveOk, NewOk, ClearNew, Delete, IsTerrible, NewSlot;
    var slot := NewSlot(env, s.key, s.info[id].service, source);
    if slot in s.newTable {
      HolderLives(env, s, slot);
    }
  }

  lemma {:induction false} HolderLives(env: Env, s: State, slot: Slot)
    requires NewOk(env, s) && slot in s.newTable
    ensures s.newTable[slot] in s.info
  {
  }

  /** An unknown address is added exactly if it is routable and the slot of its source is free, or held by an
      entry that is terrible or has another slot. */
  lemma {:induction false} UnknownAddedExact(env: Env, s: State, o: Offer, source: nat, timePenalty: int)
    requires Inv(env, s, {}, {}) && Find(s, o.addr.service).None?
    ensures AddSingle(env, s, o, source, timePenalty).1 <==>
      Routable(env, o.addr.service.ip) && Available(s, NewSlot(env, s.key, o.addr.service, source), o.terribleNow, true)
  {
    hide NewOk, TriedOk, CountsOk, MapsOk, RandomOk, AddressesOk, LiveOk, StoreNew, NewSlot, IsTerrible, Announce, Available;
    if Routable(env, o.addr.service.ip) {
      var penalty := Penalty(o, source, timePenalty);
      AnnounceKeeps(env, s, o, source, penalty);
      var a := Announce(env, s, o, source, penalty);
      Announced(env, s, o, source, penalty);
      StoredExact(env, a, s.idCount, source, o.terribleNow, {s.idCount});
      AvailableAfterAnnounce(env, s, o, source, penalty, NewSlot(env, s.key, o.addr.service, source));
    }
  }

  lemma {:induction false} Announced(env: Env, s: State, o: Offer, source: nat, penalty: int)
    requires MapsOk(s)
    ensures var a := Announce(env, s, o, source, penalty);
      && a.newTable == s.newTable && a.triedTable == s.triedTable && a.key == s.key
      && s.idCount !in s.info && a.info.Keys == s.info.Keys + {s.idCount}
      && (forall x :: x in s.info ==> a.info[x] == s.info[x])
      && a.info[s.idCount] == AddrInfo(o.addr.service, o.addr.services,
           if o.addr.time < penalty then 0 else o.addr.time - penalty, source, 0, 0, 0, 0, 0, false, |s.random|)
  {
    hide Adjust;
  }

  lemma {:induction false} AvailableAfterAnnounce(env: Env, s: State, o: Offer, source: nat, penalty: int, slot: Slot)
    requires MapsOk(s) && NewOk(env, s)
    ensures var a := Announce(env, s, o, source, penalty);
      && (slot in a.newTable ==> a.newTable[slot] != s.idCount)
      && (Available(a, slot, o.terribleNow, true) <==> Available(s, slot, o.terribleNow, true))
  {
    hide IsTerrible, Announce, Position, MapsOk;
    Announced(env, s, o, source, penalty);
    if slot in s.newTable {
      HolderLives(env, s, slot);
    }
  }

  /** A known address is added exactly if the announcement is newer than what is recorded, the entry is in the
      new table with fewer than eight slots, the draw allows one more (one in two to the number of slots), and the
      slot of the source is free or held by another entry that is terrible. */
  lemma {:induction false} KnownAddedExact(env: Env, s: State, o: Offer, source: nat, timePenalty: int, id: int)
    requires Inv(env, s, {}, {}) && Find(s, o.addr.service) == Some(id)
    ensures id in s.info
    ensures var i := s.info[id]; var slot := NewSlot(env, s.key, o.addr.service, source);
      AddSingle(env, s, o, source, timePenalty).1 <==>
        && RefreshedTime(i, o, Penalty(o, source, timePenalty)) < o.addr.time
        && !i.inTried && i.refCount < 8 && o.draw % Pow2(i.refCount) == 0
        && (slot in s.newTable ==> s.newTable[slot] != id)
        && Available(s, slot, o.terribleNow, false)
  {
    hide NewOk, TriedOk, CountsOk, MapsOk, RandomOk, AddressesOk, LiveOk, StoreNew, NewSlot, IsTerrible, Available;
    FoundIs(s, o.addr.service);
    KnownRoutable(env, s, id);
    var penalty := Penalty(o, source, timePenalty);
    var i := Refresh(s.info[id], o.addr, penalty, o.now);
    assert i.time == RefreshedTime(s.info[id], o, penalty);
    SetInfoKeeps(env, s, id, i, {});
    var s1 := SetInfo(s, id, i);
    RefCountBound(env, s, id);
    if !i.inTried {
      StoredExact(env, s1, id, source, o.terribleNow, {});
      NotIdle(s, id);
      AvailableAfterRefresh(env, s, id, i, NewSlot(env, s.key, o.addr.service, source), o.terribleNow);
      LuckyIs(o.draw, i.refCount);
    }
  }

  lemma {:induction false} KnownRoutable(env: Env, s: State, id: int)
    requires AddressesOk(env, s) && id in s.info
    ensures Routable(env, s.info[id].service.ip)
  {
  }

  lemma {:induction false} LuckyIs(draw: nat, n: int)
    ensures Lucky(draw, n) <==> draw % Pow2(n) == 0
  {
    if Pow2(n) == 1 {
      assert draw % 1 == 0;
    }
  }

  lemma {:induction false} AvailableAfterRefresh(env: Env, s: State, id: int, i: AddrInfo, slot: Slot, now: int)
    requires NewOk(env, s) && id in s.info
    ensures (slot in s.newTable ==> s.newTable[slot] != id) ==>
      (Available(SetInfo(s, id, i), slot, now, false) <==> Available(s, slot, now, false))
  {
    hide IsTerrible, Position;
    if slot in s.newTable {
      HolderLives(env, s, slot);
    }
  }

  // ---------- what the entries say afterwards ----------

  /** Entry x of s, if it holds the slot that was given away, has one slot less in t, and is gone if that was its
      last; otherwise it is unchanged. */
  ghost predicate OtherFollows(s: State, t: State, slot: Slot, given: bool, x: int)
    requires x in s.info
  {
    if given && slot in s.newTable && s.newTable[slot] == x then
      if s.info[x].refCount == 1 then x !in t.info
      else x in t.info && SameEntry(s.info[x].(refCount := s.info[x].refCount - 1), t.info[x])
    else
      x in t.info && SameEntry(s.info[x], t.info[x])
  }

  lemma {:induction false} ClearNewEntry(env: Env, s: State, slot: Slot, x: int)
    requires RandomOk(s) && NewOk(env, s) && x in s.info
    ensures OtherFollows(s, ClearNew(env, s, slot), slot, true, x)
    ensures ClearNew(env, s, slot).info.Keys <= s.info.Keys
  {
    hide Position, Delete, RandomOk;
    if slot in s.newTable {
      var t := DropRef(s, slot);
      var id := s.newTable[slot];
      if t.info[id].refCount == 0 {
        DropRefRandom(s, slot);
        DeleteFrame(env, t, id);
      }
    }
  }

  lemma {:induction false} StoredEntries(env: Env, s: State, id: int, source: nat, now: int, idle: set<int>, x: int)
    requires Inv(env, s, {}, idle) && id in s.info && !s.info[id].inTried && idle <= {id} && x in s.info
    ensures var (t, added) := StoreNew(env, s, id, source, now, idle);
      var slot := NewSlot(env, s.key, s.info[id].service, source);
      && t.info.Keys <= s.info.Keys
      && (x != id ==> OtherFollows(s, t, slot, added, x))
      && (id in t.info <==> added || s.info[id].refCount > 0)
      && (id in t.info ==> SameEntry(s.info[id].(refCount := s.info[id].refCount + if added then 1 else 0), t.info[id]))
  {
    hide TriedOk, CountsOk, MapsOk, RandomOk, AddressesOk, NewOk, ClearNew, Delete, Overwritable, NewSlot;
    var i := s.info[id];
    var slot := NewSlot(env, s.key, i.service, source);
    IdleOrNot(s, id, idle);
    CountIsNat(env, s, id);
    if slot in s.newTable && s.newTable[slot] == id {
      IdleHolds(env, s, id, slot);
    } else if slot !in s.newTable || Overwritable(s.info, s.newTable[slot], now, i) {
      ClearNewEntry(env, s, slot, x);
      ClearNewEntry(env, s, slot, id);
    } else if i.refCount == 0 {
      DeleteFrame(env, s, id);
    }
  }

  lemma {:induction false} CountIsNat(env: Env, s: State, id: int)
    requires NewOk(env, s) && id in s.info
    ensures s.info[id].refCount >= 0
  {
  }

  lemma {:induction false} IdleHolds(env: Env, s: State, id: int, slot: Slot)
    requires NewOk(env, s) && id in s.info && slot in s.newTable && s.newTable[slot] == id
    ensures s.info[id].refCount != 0
  {
    assert slot in Refs(s.newTable, id);
  }

  /** The entry of an unknown address that was added: as announced, from this source, with one slot and no
      history. One that was not added leaves no trace. */
  lemma {:induction false} UnknownEntry(env: Env, s: State, o: Offer, source: nat, timePenalty: int)
    requires Inv(env, s, {}, {}) && Find(s, o.addr.service).None?
    ensures var (t, added) := AddSingle(env, s, o, source, timePenalty);
      if added then
        && Find(t, o.addr.service).Some?
        && var i, penalty := t.info[Find(t, o.addr.service).value], Penalty(o, source, timePenalty);
          && i.service == o.addr.service && i.services == o.addr.services && i.source == source
          && i.time == (if o.addr.time < penalty then 0 else o.addr.time - penalty)
          && i.refCount == 1 && !i.inTried
          && i.lastTry == 0 && i.lastSuccess == 0 && i.lastCountAttempt == 0 && i.attempts == 0
      else
        Find(t, o.addr.service).None? && t.info.Keys == s.info.Keys
  {
    hide NewOk, TriedOk, CountsOk, MapsOk, RandomOk, AddressesOk, LiveOk, StoreNew, NewSlot, Announce;
    if Routable(env, o.addr.service.ip) {
      var penalty := Penalty(o, source, timePenalty);
      var id := s.idCount;
      AnnounceKeeps(env, s, o, source, penalty);
      Announced(env, s, o, source, penalty);
      var a := Announce(env, s, o, source, penalty);
      StoredEntries(env, a, id, source, o.terribleNow, {id}, id);
      StoredFound(env, a, id, source, o.terribleNow, {id});
      var (t, added) := StoreNew(env, a, id, source, o.terribleNow, {id});
      if !added {
        StoreNewKeeps(env, a, id, source, o.terribleNow, {id});
        GoneNotFound(a, t, id, o.addr.service);
        forall x | x in s.info ensures x in t.info {
          StoredEntries(env, a, id, source, o.terribleNow, {id}, x);
        }
      }
    }
  }

  lemma {:induction false} GoneNotFound(s: State, t: State, id: int, a: Service)
    requires MapsOk(s) && MapsOk(t) && Kept(s, t) && id in s.info && s.info[id].service == a && id !in t.info
    ensures Find(t, a).None?
  {
  }

  /** The entry of a known address: refreshed, whether or not it got one more slot. */
  lemma {:induction false} KnownEntry(env: Env, s: State, o: Offer, source: nat, timePenalty: int, id: int)
    requires Inv(env, s, {}, {}) && Find(s, o.addr.service) == Some(id)
    ensures id in s.info
    ensures var (t, added) := AddSingle(env, s, o, source, timePenalty);
      && Find(t, o.addr.service) == Some(id)
      && var i, j := s.info[id], t.info[id];
        && j.time == RefreshedTime(i, o, Penalty(o, source, timePenalty))
        && j.services == i.services + o.addr.services
        && j.refCount == i.refCount + (if added then 1 else 0)
        && SameEntry(i, j.(time := i.time, services := i.services, refCount := i.refCount))
  {
    hide NewOk, TriedOk, CountsOk, MapsOk, RandomOk, AddressesOk, LiveOk, StoreNew, NewSlot;
    FoundIs(s, o.addr.service);
    KnownRoutable(env, s, id);
    var i := Refresh(s.info[id], o.addr, Penalty(o, source, timePenalty), o.now);
    SetInfoKeeps(env, s, id, i, {});
    var s1 := SetInfo(s, id, i);
    FoundAt(s1, id);
    RefCountBound(env, s, id);
    if !i.inTried && i.refCount < NEW_BUCKETS_PER_ADDRESS {
      NotIdle(s, id);
      StoredEntries(env, s1, id, source, o.terribleNow, {}, id);
      StoredFound(env, s1, id, source, o.terribleNow, {});
    }
  }

  /** Every other entry is unchanged, except that the occupant of the slot that was given away has one slot less
      and is gone if it was its last. */
  lemma {:induction false} OthersAfterAdd(env: Env, s: State, o: Offer, source: nat, timePenalty: int, x: int)
    requires Inv(env, s, {}, {}) && x in s.info && Find(s, o.addr.service) != Some(x)
    ensures var (t, added) := AddSingle(env, s, o, source, timePenalty);
      OtherFollows(s, t, NewSlot(env, s.key, o.addr.service, source), added, x)
  {
    hide NewOk, TriedOk, CountsOk, MapsOk, RandomOk, AddressesOk, LiveOk, StoreNew, NewSlot, Announce;
    if Routable(env, o.addr.service.ip) {
      var penalty := Penalty(o, source, timePenalty);
      if Find(s, o.addr.service).Some? {
        var id := Find(s, o.addr.service).value;
        FoundIs(s, o.addr.service);
        var i := Refresh(s.info[id], o.addr, penalty, o.now);
        SetInfoKeeps(env, s, id, i, {});
        if !i.inTried {
          StoredEntries(env, SetInfo(s, id, i), id, source, o.terribleNow, {}, x);
        }
      } else {
        AnnounceKeeps(env, s, o, source, penalty);
        Announced(env, s, o, source, penalty);
        StoredEntries(env, Announce(env, s, o, source, penalty), s.idCount, source, o.terribleNow, {s.idCount}, x);
      }
    }
  }

  /** So an empty manager takes any routable address from any source. */
  lemma {:induction false} FirstAddress(env: Env, key: Key, o: Offer, source: nat, timePenalty: int)
    requires Routable(env, o.addr.service.ip)
    ensures Inv(env, Empty(key), {}, {})
    ensures var (t, added) := AddSingle(env, Empty(key), o, source, timePenalty);
      added && Find(t, o.addr.service).Some?
  {
    hide AddSingle, Inv;
    EmptyConsistent(env, key);
    EmptyHolds(env, key);
    UnknownAddedExact(env, Empty(key), o, source, timePenalty);
    UnknownEntry(env, Empty(key), o, source, timePenalty);
  }

  lemma {:induction false} EmptyHolds(env: Env, key: Key)
    requires Consistent(env, Empty(key))
    ensures Inv(env, Empty(key), {}, {})
  {
  }
}

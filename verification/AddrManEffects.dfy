/** What the two operations that move entries achieve, and what they may cost: which slot changes hands, what
    the returned flag means, and which entry can be lost. */
module AddrManEffects {
  import opened Options
  import opened AddrManState
  import opened AddrManInvariant
  import opened AddrManOps
  import opened AddrManRun

  // ---------- what clearing a slot costs ----------

  /** Only the last reference takes its entry with it. */
  lemma {:induction false} ClearNewSurvivors(env: Env, s: State, slot: Slot, x: int)
    requires RandomOk(s) && NewOk(env, s) && x in s.info
    ensures x in ClearNew(env, s, slot).info || (slot in s.newTable && s.newTable[slot] == x && s.info[x].refCount == 1)
  {
    hide Position, Delete, RandomOk;
    if slot in s.newTable {
      var t := DropRef(s, slot);
      var id := s.newTable[slot];
      if t.info[id].refCount == 0 {
        DropRefRandom(s, slot);
        DeleteFrame(env, t, id);
      }
    }
  }

  // ---------- adding ----------

  /** Storing an entry in the slot of a source: the flag tells whether the new table changed, the change is that
      one slot, and an entry is lost only with its last slot, or if it never had one. */
  lemma {:induction false} StoreNewEffect(env: Env, s: State, id: int, source: nat, now: int, idle: set<int>, x: int)
    requires Inv(env, s, {}, idle) && id in s.info && !s.info[id].inTried && idle <= {id} && x in s.info
    ensures var (t, added) := StoreNew(env, s, id, source, now, idle);
      var slot := NewSlot(env, s.key, s.info[id].service, source);
      && t.newTable == (if added then s.newTable[slot := id] else s.newTable)
      && (added ==> id in t.info && (slot in s.newTable ==> s.newTable[slot] != id))
      && (x in t.info
          || (added && slot in s.newTable && s.newTable[slot] == x && s.info[x].refCount == 1)
          || (!added && x == id && s.info[id].refCount == 0))
  {
    hide TriedOk, CountsOk, MapsOk, RandomOk, AddressesOk, LiveOk, ClearNew, Delete, Position, Overwritable, NewBucket;
    var i := s.info[id];
    var slot := NewSlot(env, s.key, i.service, source);
    if slot in s.newTable && s.newTable[slot] == id {
    } else if slot !in s.newTable || Overwritable(s.info, s.newTable[slot], now, i) {
      ClearNewFrame(env, s, slot);
      ClearNewSurvivors(env, s, slot, x);
      PutBackSlot(s.newTable, slot, id);
    } else if i.refCount == 0 {
      DeleteFrame(env, s, id);
    }
  }

  lemma {:induction false} PutBackSlot(table: map<Slot, int>, slot: Slot, id: int)
    ensures (table - {slot})[slot := id] == table[slot := id]
  {
  }

  /** Add tells whether it put the address into the new slot of its source. Nothing else in the tables changes,
      and no other entry is lost but one that had only this slot. */
  lemma {:induction false} AddSingleEffect(env: Env, s: State, o: Offer, source: nat, timePenalty: int, x: int)
    requires Inv(env, s, {}, {}) && x in s.info
    ensures var (t, added) := AddSingle(env, s, o, source, timePenalty);
      var slot := NewSlot(env, s.key, o.addr.service, source);
      && (added ==> Find(t, o.addr.service).Some?)
      && t.newTable == (if added then s.newTable[slot := Find(t, o.addr.service).value] else s.newTable)
      && (added && slot in s.newTable ==> s.newTable[slot] != Find(t, o.addr.service).value)
      && t.triedTable == s.triedTable
      && (x in t.info || (added && slot in s.newTable && s.newTable[slot] == x && s.info[x].refCount == 1))
  {
    hide NewOk, TriedOk, CountsOk, MapsOk, RandomOk, AddressesOk, LiveOk, StoreNew, AddKnown, Announce, NewSlot, TimesOk;
    if Routable(env, o.addr.service.ip) {
      var penalty := if o.addr.service.ip == source then 0 else timePenalty;
      AddSingleKeeps(env, s, o, source, timePenalty);
      if Find(s, o.addr.service).Some? {
        AddKnownEffect(env, s, o, Find(s, o.addr.service).value, source, penalty, x);
      } else {
        AddUnknownEffect(env, s, o, source, penalty, x);
      }
    }
  }

  lemma {:induction false} FoundAt(s: State, id: int)
    requires MapsOk(s) && id in s.info
    ensures Find(s, s.info[id].service) == Some(id)
  {
  }

  lemma {:induction false} FoundIs(s: State, a: Service)
    requires MapsOk(s) && Find(s, a).Some?
    ensures Find(s, a).value in s.info && s.info[Find(s, a).value].service == a
  {
  }

  lemma {:induction false} StoredFound(env: Env, s: State, id: int, source: nat, now: int, idle: set<int>)
    requires Inv(env, s, {}, idle) && id in s.info && !s.info[id].inTried
    requires idle <= {id} && s.info[id].refCount < NEW_BUCKETS_PER_ADDRESS
    ensures var t := StoreNew(env, s, id, source, now, idle).0;
      id in t.info ==> Find(t, s.info[id].service) == Some(id)
  {
    hide NewOk, TriedOk, CountsOk, MapsOk, RandomOk, AddressesOk, LiveOk, StoreNew;
    StoreNewKeeps(env, s, id, source, now, idle);
    var t := StoreNew(env, s, id, source, now, idle).0;
    if id in t.info {
      FoundAt(t, id);
    }
  }

  lemma {:induction false} AddKnownEffect(env: Env, s: State, o: Offer, id: int, source: nat, penalty: int, x: int)
    requires Inv(env, s, {}, {}) && Find(s, o.addr.service) == Some(id) && id in s.info && x in s.info
    ensures var (t, added) := AddKnown(env, s, o, id, source, penalty);
      var slot := NewSlot(env, s.key, o.addr.service, source);
      && (added ==> Find(t, o.addr.service) == Some(id))
      && t.newTable == (if added then s.newTable[slot := id] else s.newTable)
      && (added && slot in s.newTable ==> s.newTable[slot] != id)
      && (x in t.info || (added && slot in s.newTable && s.newTable[slot] == x && s.info[x].refCount == 1))
  {
    hide NewOk, TriedOk, CountsOk, MapsOk, RandomOk, AddressesOk, LiveOk, StoreNew, NewSlot, Lucky;
    FoundIs(s, o.addr.service);
    var i := Refresh(s.info[id], o.addr, penalty, o.now);
    SetInfoKeeps(env, s, id, i, {});
    var s1 := SetInfo(s, id, i);
    RefCountBound(env, s1, id);
    if !(o.addr.time <= i.time || i.inTried || i.refCount == NEW_BUCKETS_PER_ADDRESS || !Lucky(o.draw, i.refCount)) {
      StoreNewEffect(env, s1, id, source, o.terribleNow, {}, x);
      StoredFound(env, s1, id, source, o.terribleNow, {});
      NotIdle(s1, id);
    }
  }

  lemma {:induction false} NotIdle(s: State, id: int)
    requires LiveOk(s, {}) && id in s.info && !s.info[id].inTried
    ensures s.info[id].refCount > 0
  {
  }

  lemma {:induction false} AddUnknownEffect(env: Env, s: State, o: Offer, source: nat, penalty: int, x: int)
    requires Inv(env, s, {}, {}) && Find(s, o.addr.service).None? && Routable(env, o.addr.service.ip) && x in s.info
    ensures Inv(env, Announce(env, s, o, source, penalty), {}, {s.idCount})
    ensures var a := Announce(env, s, o, source, penalty);
      s.idCount in a.info && !a.info[s.idCount].inTried
    ensures var (t, added) := StoreNew(env, Announce(env, s, o, source, penalty), s.idCount, source, o.terribleNow, {s.idCount});
      var slot := NewSlot(env, s.key, o.addr.service, source);
      && (added ==> Find(t, o.addr.service) == Some(s.idCount))
      && t.newTable == (if added then s.newTable[slot := s.idCount] else s.newTable)
      && (added && slot in s.newTable ==> s.newTable[slot] != s.idCount)
      && (x in t.info || (added && slot in s.newTable && s.newTable[slot] == x && s.info[x].refCount == 1))
  {
    hide NewOk, TriedOk, CountsOk, MapsOk, RandomOk, AddressesOk, LiveOk, StoreNew, NewSlot;
    AnnounceKeeps(env, s, o, source, penalty);
    AnnounceFrame(env, s, o, source, penalty, x);
    var a := Announce(env, s, o, source, penalty);
    StoreNewEffect(env, a, s.idCount, source, o.terribleNow, {s.idCount}, x);
    StoredFound(env, a, s.idCount, source, o.terribleNow, {s.idCount});
  }

  lemma {:induction false} AnnounceFrame(env: Env, s: State, o: Offer, source: nat, penalty: int, x: int)
    requires MapsOk(s) && x in s.info
    ensures var a := Announce(env, s, o, source, penalty);
      && a.newTable == s.newTable && a.key == s.key && x in a.info && x != s.idCount && a.info[x] == s.info[x]
      && s.idCount in a.info && a.info[s.idCount].service == o.addr.service
      && !a.info[s.idCount].inTried && a.info[s.idCount].refCount == 0
  {
    hide Adjust;
  }

  // ---------- a good connection ----------

  /** The new table without the slots of one entry. */
  function Without(table: map<Slot, int>, id: int): map<Slot, int> {
    map slot | slot in table && table[slot] != id :: table[slot]
  }

  lemma {:induction false} StripFrame(env: Env, s: State, id: int, x: int)
    requires id in s.info && x in s.info
    ensures var t := StripNew(env, s, id);
      && t.newTable == Without(s.newTable, id) && t.triedTable == s.triedTable && t.key == s.key
      && x in t.info && (x != id ==> t.info[x] == s.info[x])
      && id in t.info && SameStats(s.info[id], t.info[id])
  {
    hide Adjust;
  }

  lemma {:induction false} EvictEffect(env: Env, s: State, slot: Slot, limbo: set<int>, x: int)
    requires Inv(env, s, limbo, limbo) && slot in s.triedTable && x in s.info
    ensures s.triedTable[slot] in s.info
    ensures var evicted := s.triedTable[slot];
      var home := NewSlot(env, s.key, s.info[evicted].service, s.info[evicted].source);
      var t := Evict(env, s, slot, limbo);
      && t.newTable == s.newTable[home := evicted]
      && (x in t.info || (home in s.newTable && s.newTable[home] == x && s.info[x].refCount == 1))
  {
    hide NewOk, TriedOk, CountsOk, MapsOk, RandomOk, AddressesOk, ClearNew, NewBucket, Position, Adjust;
    LeaveTriedKeeps(env, s, slot, limbo);
    var evicted := s.triedTable[slot];
    var s2 := LeaveTried(env, s, slot);
    var home := NewSlot(env, s.key, s.info[evicted].service, s.info[evicted].source);
    ClearNewKeeps(env, s2, home, limbo + {evicted}, limbo + {evicted});
    ClearNewFrame(env, s2, home);
    if home in s2.newTable {
      IdleHoldsNoSlot(env, s2, evicted, home);
    }
    ClearNewSurvivors(env, s2, home, x);
    ClearNewSurvivors(env, s2, home, evicted);
    assert SameStats(s2.info[evicted], ClearNew(env, s2, home).info[evicted]);
    PutBackSlot(s2.newTable, home, evicted);
  }

  /** The slots of the entry are freed. An occupant of its tried slot goes back to the new slot of its own
      source, where it may cost an entry that had no other. */
  lemma {:induction false} MakeTriedEffect(env: Env, s: State, id: int, x: int)
    requires Inv(env, s, {}, {}) && id in s.info && !s.info[id].inTried && x in s.info
    ensures var t := MakeTried(env, s, id);
      var slot := TriedSlot(env, s.key, s.info[id].service);
      if slot !in s.triedTable then
        t.newTable == Without(s.newTable, id) && x in t.info
      else
        && s.triedTable[slot] in s.info
        && var evicted := s.triedTable[slot];
          var home := NewSlot(env, s.key, s.info[evicted].service, s.info[evicted].source);
          && t.newTable == Without(s.newTable, id)[home := evicted]
          && (x in t.info || (home in s.newTable && s.newTable[home] == x && x != id && s.info[x].refCount == 1))
  {
    hide NewOk, TriedOk, CountsOk, MapsOk, RandomOk, AddressesOk, LiveOk, Evict, NewSlot, TriedSlot, StripNew, Without;
    StripNewKeeps(env, s, id);
    StripFrame(env, s, id, x);
    var s1 := StripNew(env, s, id);
    var slot := TriedSlot(env, s.key, s.info[id].service);
    if slot in s1.triedTable {
      EvictEffect(env, s1, slot, {id}, x);
      OccupantIsTried(env, s, slot);
      StripFrame(env, s, id, s.triedTable[slot]);
      WithoutAt(s.newTable, id, NewSlot(env, s.key, s1.info[s1.triedTable[slot]].service, s1.info[s1.triedTable[slot]].source));
    }
  }

  lemma {:induction false} OccupantIsTried(env: Env, s: State, slot: Slot)
    requires TriedOk(env, s) && slot in s.triedTable
    ensures s.triedTable[slot] in s.info && s.info[s.triedTable[slot]].inTried
  {
  }

  lemma {:induction false} WithoutAt(table: map<Slot, int>, id: int, slot: Slot)
    ensures slot in Without(table, id) ==> slot in table && Without(table, id)[slot] == table[slot] && table[slot] != id
  {
  }

  /** Good notes the success with every known address, and promotes exactly those that are in the new table and
      (if asked to test first) whose tried slot is free; the flag says which. One whose slot is taken then waits, if
      fewer than ten do. Nothing is noted with any other entry. */
  lemma {:induction false} GoodEffect(env: Env, s: State, a: Service, testBeforeEvict: bool, time: int)
    requires Inv(env, s, {}, {})
    ensures var (t, promoted) := Good(env, s, a, testBeforeEvict, time);
      && t.lastGood == time
      && (Find(s, a).None? ==> !promoted && t == s.(lastGood := time))
      && (Find(s, a).Some? ==>
        var id := Find(s, a).value;
        var slot := TriedSlot(env, s.key, a);
        && id in t.info && t.info[id].lastSuccess == time && t.info[id].lastTry == time && t.info[id].attempts == 0
        && t.info[id].service == a
        && (promoted <==> id !in Values(s.triedTable) && !(testBeforeEvict && slot in s.triedTable))
        && t.triedTable == (if promoted then s.triedTable[slot := id] else s.triedTable)
        && (!promoted ==> t.newTable == s.newTable && t.info.Keys == s.info.Keys)
        && t.collisions == (if testBeforeEvict && slot in s.triedTable && id !in Values(s.triedTable) && |s.collisions| < 10
                            then s.collisions + {id} else s.collisions)
        && t.key == s.key && (forall x :: x in t.info && x != id ==> x in s.info && SameStats(s.info[x], t.info[x])))
  {
    hide NewOk, TriedOk, CountsOk, MapsOk, RandomOk, AddressesOk, LiveOk, MakeTried, NewSlot, TriedSlot, Values;
    if Find(s, a).Some? {
      FoundIs(s, a);
      var id := Find(s, a).value;
      SucceedKeeps(env, s, id, time);
      var t := Succeed(s, id, time);
      TriedValues(env, s, id);
      if !s.info[id].inTried {
        NotIdle(s, id);
        MakeTriedKeeps(env, t, id);
        assert SameStats(t.info[id], MakeTried(env, t, id).info[id]);
      }
    }
  }

  ghost function Values(table: map<Slot, int>): set<int> {
    set slot | slot in table :: table[slot]
  }

  lemma {:induction false} TriedValues(env: Env, s: State, id: int)
    requires TriedOk(env, s) && id in s.info
    ensures id in Values(s.triedTable) <==> s.info[id].inTried
  {
    hide TriedSlot;
  }
}

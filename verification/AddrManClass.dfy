/** The address manager as the object it is: fields updated in place, tables as two-dimensional arrays.
    Every method is proved to do to the fields what the matching function does to the state. */
module AddrManClass {
  import opened Options
  import opened AddrManState
  import opened AddrManInvariant
  import opened AddrManOps
  import opened AddrManRun

  /** The occupied slots of a table; -1 marks a free one. */
  ghost function Table(a: array2<int>): map<Slot, int>
    reads a
  {
    map b, p | 0 <= b < a.Length0 && 0 <= p < a.Length1 && a[b, p] != -1 :: (b, p) := a[b, p]
  }

  /** The new table after the first n buckets from `start` on have been freed of an id. */
  ghost function Unscanned(table: map<Slot, int>, id: int, start: int, n: int): map<Slot, int> {
    map slot | slot in table && !(table[slot] == id && (slot.0 - start) % NEW_BUCKET_COUNT < n) :: table[slot]
  }

  lemma {:induction false} UnscannedStart(env: Env, s: State, id: int, start: int)
    requires NewOk(env, s) && id in s.info
    ensures Unscanned(s.newTable, id, start, 0) == s.newTable
    ensures s.info[id].refCount == |Refs(Unscanned(s.newTable, id, start, 0), id)|
  {
  }

  lemma {:induction false} OnlySlotInBucket(env: Env, s: State, id: int, start: int, n: int, x: Slot)
    requires NewOk(env, s) && id in s.info && x in s.newTable && s.newTable[x] == id
    requires 0 <= start < NEW_BUCKET_COUNT && 0 <= n < NEW_BUCKET_COUNT
    requires (x.0 - start) % NEW_BUCKET_COUNT == n
    ensures var b := (start + n) % NEW_BUCKET_COUNT; x == (b, Position(env, s.key, true, b, s.info[id].service))
  {
  }

  lemma {:induction false} UnscannedNext(table: map<Slot, int>, id: int, start: int, n: int, slot: Slot)
    requires (slot.0 - start) % NEW_BUCKET_COUNT == n
    requires forall x :: x in table && table[x] == id && (x.0 - start) % NEW_BUCKET_COUNT == n ==> x == slot
    ensures var u, v := Unscanned(table, id, start, n), Unscanned(table, id, start, n + 1);
      && (slot in u <==> slot in table)
      && (slot in u ==> u[slot] == table[slot])
      && v == (if slot in u && u[slot] == id then u - {slot} else u)
      && (slot in u && u[slot] == id ==> |Refs(v, id)| == |Refs(u, id)| - 1)
  {
    var u, v := Unscanned(table, id, start, n), Unscanned(table, id, start, n + 1);
    if slot in u && u[slot] == id {
      assert v == u - {slot};
      RefsRemove(u, slot, id);
    } else {
      assert v == u;
    }
  }

  lemma {:induction false} UnscannedStep(env: Env, s: State, id: int, start: int, n: int)
    requires NewOk(env, s) && id in s.info
    requires 0 <= start < NEW_BUCKET_COUNT && 0 <= n < NEW_BUCKET_COUNT
    ensures var b := (start + n) % NEW_BUCKET_COUNT;
      var slot := (b, Position(env, s.key, true, b, s.info[id].service));
      var u, v := Unscanned(s.newTable, id, start, n), Unscanned(s.newTable, id, start, n + 1);
      && (slot in u <==> slot in s.newTable)
      && (slot in u ==> u[slot] == s.newTable[slot])
      && v == (if slot in u && u[slot] == id then u - {slot} else u)
      && (slot in u && u[slot] == id ==> |Refs(v, id)| == |Refs(u, id)| - 1)
  {
    hide NewOk, Unscanned, Refs, Position;
    var b := (start + n) % NEW_BUCKET_COUNT;
    var slot := (b, Position(env, s.key, true, b, s.info[id].service));
    forall x | x in s.newTable && s.newTable[x] == id && (x.0 - start) % NEW_BUCKET_COUNT == n ensures x == slot {
      OnlySlotInBucket(env, s, id, start, n, x);
    }
    UnscannedNext(s.newTable, id, start, n, slot);
  }

  /** Once no reference is left, or every bucket has been scanned, the table is stripped of the id. */
  lemma {:induction false} UnscannedDone(env: Env, s: State, id: int, start: int, n: int)
    requires n == NEW_BUCKET_COUNT || |Refs(Unscanned(s.newTable, id, start, n), id)| == 0
    requires id in s.info
    ensures Unscanned(s.newTable, id, start, n) == StripNew(env, s, id).newTable
    ensures Refs(Unscanned(s.newTable, id, start, n), id) == {}
  {
    var u := Unscanned(s.newTable, id, start, n);
    forall x | x in u ensures u[x] != id {
      assert n != NEW_BUCKET_COUNT ==> x !in Refs(u, id);
    }
  }

  /** Clearing a slot for an entry without references does not touch that entry. */
  lemma {:induction false} EvictedStays(env: Env, s: State, id: int, slot: Slot, idle: set<int>)
    requires Inv(env, s, idle, idle) && id in idle
    ensures var t := ClearNew(env, s, slot);
      id >= 0 && id in t.info && t.info[id].service == s.info[id].service && t.info[id].source == s.info[id].source
      && t.key == s.key
  {
    assert id >= 0;
    hide TriedOk, CountsOk, AddressesOk, RandomOk, MapsOk, NewOk;
    ClearNewFrame(env, s, slot);
    if slot in s.newTable {
      IdleHoldsNoSlot(env, s, id, slot);
    }
    assert SameEntry(s.info[id], ClearNew(env, s, slot).info[id]);
  }

  lemma {:induction false} UntriedIsReferenced(s: State, id: int)
    requires MapsOk(s) && LiveOk(s, {}) && id in s.info && !s.info[id].inTried
    ensures id >= 0 && s.info[id].refCount > 0
  {
  }

  lemma {:induction false} LimboStays(s: State, t: State, id: int)
    requires LiveOk(t, {id}) && Kept(s, t)
    ensures id in s.info && id in t.info && t.info[id].service == s.info[id].service && t.key == s.key
  {
  }

  lemma {:induction false} IdIsNat(s: State, id: int)
    requires MapsOk(s) && id in s.info
    ensures id >= 0
  {
  }

  function TakenNext(env: Env, s: State, n: nat, network: Option<nat>, now: int, taken: seq<int>): seq<int>
    requires RandomOk(s) && n < |s.random|
  {
    var id := s.random[n];
    if Eligible(env, s.info[id], network, now) then taken + [id] else taken
  }

  lemma {:induction false} GetAddrStep(env: Env, s: State, n: nat, limit: int, draws: nat -> nat, network: Option<nat>, now: int, taken: seq<int>)
    requires RandomOk(s) && n < |s.random| && |taken| < limit
    ensures var t := SwapRandom(s, n, Draw(draws, n, |s.random|));
      && RandomOk(t) && |t.random| == |s.random|
      && GetAddrFrom(env, s, n, limit, draws, network, now, taken)
      == GetAddrFrom(env, t, n + 1, limit, draws, network, now, TakenNext(env, t, n, network, now, taken))
  {
    hide RandomOk, Eligible, SwapRandom;
    SwapShuffles(s, n, Draw(draws, n, |s.random|));
    RandomIsLive(SwapRandom(s, n, Draw(draws, n, |s.random|)), n);
  }

  lemma {:induction false} GetAddrEnd(env: Env, s: State, n: nat, limit: int, draws: nat -> nat, network: Option<nat>, now: int, taken: seq<int>)
    requires RandomOk(s) && n <= |s.random| && (n == |s.random| || |taken| >= limit)
    ensures GetAddrFrom(env, s, n, limit, draws, network, now, taken) == (s, taken)
  {
  }

  lemma {:induction false} RandomIsLive(s: State, n: int)
    requires RandomOk(s) && 0 <= n < |s.random|
    ensures s.random[n] in s.info
  {
  }

  lemma {:induction false} HolderIsLive(env: Env, s: State, slot: Slot)
    requires NewOk(env, s) && slot in s.newTable
    ensures s.newTable[slot] in s.info
  {
  }

  lemma {:induction false} CreatedEntry(env: Env, s: State, a: Address, source: nat)
    ensures var t := Create(env, s, a, source); s.idCount in t.info && !t.info[s.idCount].inTried
  {
  }

  class AddrMan {
    const env: Env
    var nKey: Key
    var nIdCount: int
    var mapInfo: map<int, AddrInfo>
    var mapAddr: map<Service, int>
    var vRandom: seq<int>
    var nTried: int
    const vvTried: array2<int>
    var nNew: int
    const vvNew: array2<int>
    var lastGood: int
    var triedCollisions: set<int>
    var networkCounts: map<nat, Count>

    ghost predicate Shape() {
      && vvTried.Length0 == TRIED_BUCKET_COUNT && vvTried.Length1 == BUCKET_SIZE
      && vvNew.Length0 == NEW_BUCKET_COUNT && vvNew.Length1 == BUCKET_SIZE
      && vvNew != vvTried
    }

    ghost function View(): State
      reads this, vvTried, vvNew
    {
      State(nKey, nIdCount, mapInfo, mapAddr, vRandom, nTried, Table(vvTried), nNew, Table(vvNew),
            lastGood, triedCollisions, networkCounts)
    }

    constructor (env: Env, key: Key)
      ensures Shape() && View() == Empty(key) && this.env == env
      ensures fresh(vvTried) && fresh(vvNew)
    {
      this.env := env;
      nKey, nIdCount, mapInfo, mapAddr, vRandom := key, 0, map[], map[], [];
      nTried, nNew, lastGood, triedCollisions, networkCounts := 0, 0, 1, {}, map[];
      vvTried := new int[TRIED_BUCKET_COUNT, BUCKET_SIZE]((i, j) => -1);
      vvNew := new int[NEW_BUCKET_COUNT, BUCKET_SIZE]((i, j) => -1);
    }

    // ---------- single assignments ----------

    method SetNew(slot: Slot, id: int)
      requires Shape() && 0 <= slot.0 < NEW_BUCKET_COUNT && 0 <= slot.1 < BUCKET_SIZE
      modifies vvNew
      ensures View() == old(View()).(newTable :=
        if id == -1 then old(View()).newTable - {slot} else old(View()).newTable[slot := id])
    {
      vvNew[slot.0, slot.1] := id;
      var b, p := slot.0, slot.1;
      assert slot == (b, p);
    }

    method SetTried(slot: Slot, id: int)
      requires Shape() && 0 <= slot.0 < TRIED_BUCKET_COUNT && 0 <= slot.1 < BUCKET_SIZE
      modifies vvTried
      ensures View() == old(View()).(triedTable :=
        if id == -1 then old(View()).triedTable - {slot} else old(View()).triedTable[slot := id])
    {
      vvTried[slot.0, slot.1] := id;
    }

    method AdjustCount(net: nat, dNew: int, dTried: int)
      modifies this`networkCounts
      ensures View() == old(View()).(counts := Adjust(old(View()), net, dNew, dTried))
    {
      var c := if net in networkCounts then networkCounts[net] else Count(0, 0);
      networkCounts := networkCounts[net := Count(c.nNew + dNew, c.nTried + dTried)];
    }

    method NewAt(slot: Slot) returns (id: int)
      requires Shape() && 0 <= slot.0 < NEW_BUCKET_COUNT && 0 <= slot.1 < BUCKET_SIZE
      ensures id == if slot in View().newTable then View().newTable[slot] else -1
      ensures slot in View().newTable <==> id != -1
    {
      id := vvNew[slot.0, slot.1];
      var b, p := slot.0, slot.1;
      assert slot == (b, p);
    }

    method TriedAt(slot: Slot) returns (id: int)
      requires Shape() && 0 <= slot.0 < TRIED_BUCKET_COUNT && 0 <= slot.1 < BUCKET_SIZE
      ensures id == if slot in View().triedTable then View().triedTable[slot] else -1
      ensures slot in View().triedTable <==> id != -1
    {
      id := vvTried[slot.0, slot.1];
      var b, p := slot.0, slot.1;
      assert slot == (b, p);
    }

    // ---------- primitive operations ----------

    method Create(a: Address, source: nat) returns (id: int)
      modifies this
      ensures View() == AddrManState.Create(env, old(View()), a, source) && id == old(nIdCount)
    {
      hide Table, Adjust;
      ghost var s := View();
      id := nIdCount;
      nIdCount := nIdCount + 1;
      mapInfo := mapInfo[id := AddrInfo(a.service, a.services, a.time, source, 0, 0, 0, 0, 0, false, -1)];
      mapAddr := mapAddr[a.service := id];
      mapInfo := mapInfo[id := mapInfo[id].(randomPos := |vRandom|)];
      vRandom := vRandom + [id];
      nNew := nNew + 1;
      AdjustSame(s, View(), env.network(a.service.ip), 1, 0);
      AdjustCount(env.network(a.service.ip), 1, 0);
    }

    method SwapRandom(i: int, j: int)
      requires RandomOk(View()) && 0 <= i < |vRandom| && 0 <= j < |vRandom|
      modifies this`mapInfo, this`vRandom
      ensures View() == AddrManState.SwapRandom(old(View()), i, j)
    {
      if i == j {
        return;
      }
      var id1, id2 := vRandom[i], vRandom[j];
      assert id1 in mapInfo && id2 in mapInfo;
      mapInfo := mapInfo[id1 := mapInfo[id1].(randomPos := j)];
      mapInfo := mapInfo[id2 := mapInfo[id2].(randomPos := i)];
      vRandom := vRandom[i := id2];
      vRandom := vRandom[j := id1];
    }

    method DropLast(id: int)
      requires id in mapInfo && |vRandom| > 0
      modifies this
      ensures View() == AddrManState.DropLast(env, old(View()), id)
    {
      hide Table;
      var i := mapInfo[id];
      AdjustCount(env.network(i.service.ip), -1, 0);
      vRandom := vRandom[..|vRandom| - 1];
      mapAddr := mapAddr - {i.service};
      mapInfo := mapInfo - {id};
      nNew := nNew - 1;
    }

    method Delete(id: int)
      requires RandomOk(View())
      requires id in mapInfo && !mapInfo[id].inTried && mapInfo[id].refCount == 0
      modifies this
      ensures View() == AddrManState.Delete(env, old(View()), id)
    {
      hide RandomOk, Table;
      SwapToLast(View(), id);
      SwapRandom(mapInfo[id].randomPos, |vRandom| - 1);
      DropLast(id);
    }

    method ClearNew(slot: Slot)
      requires Shape() && RandomOk(View()) && NewOk(env, View())
      requires 0 <= slot.0 < NEW_BUCKET_COUNT && 0 <= slot.1 < BUCKET_SIZE
      modifies this, vvNew
      ensures View() == AddrManState.ClearNew(env, old(View()), slot)
    {
      var id := NewAt(slot);
      if id != -1 {
        assert slot in Refs(View().newTable, id);
        ghost var s := View();
        mapInfo := mapInfo[id := mapInfo[id].(refCount := mapInfo[id].refCount - 1)];
        SetNew(slot, -1);
        assert View() == DropRef(s, slot);
        if mapInfo[id].refCount == 0 {
          DropRefRandom(s, slot);
          Delete(id);
        }
      }
    }

    /** Frees all new slots of an entry, stopping as soon as no reference is left. */
    method RemoveFromNew(id: int)
      requires Shape() && NewOk(env, View()) && id in mapInfo && id >= 0 && mapInfo[id].refCount > 0
      modifies this`mapInfo, vvNew
      ensures View() == old(View()).(info := StripNew(env, old(View()), id).info, newTable := StripNew(env, old(View()), id).newTable)
    {
      hide NewOk, Unscanned, Refs, Table;
      ghost var s := View();
      var i := mapInfo[id];
      var start := NewBucket(env, nKey, i.service, i.source);
      var n := 0;
      UnscannedStart(env, s, id, start);
      assert s.info[id := i.(refCount := i.refCount)] == s.info;
      while n < NEW_BUCKET_COUNT
        invariant 0 <= n <= NEW_BUCKET_COUNT
        invariant id in mapInfo && mapInfo[id].refCount == |Refs(Unscanned(s.newTable, id, start, n), id)|
        invariant View() == s.(info := s.info[id := i.(refCount := mapInfo[id].refCount)],
                               newTable := Unscanned(s.newTable, id, start, n))
      {
        var bucket := (start + n) % NEW_BUCKET_COUNT;
        var slot := (bucket, Position(env, nKey, true, bucket, i.service));
        UnscannedStep(env, s, id, start, n);
        var holder := NewAt(slot);
        n := n + 1;
        if holder == id {
          SetNew(slot, -1);
          mapInfo := mapInfo[id := mapInfo[id].(refCount := mapInfo[id].refCount - 1)];
          if mapInfo[id].refCount == 0 {
            break;
          }
        }
      }
      UnscannedDone(env, s, id, start, n);
    }

    method LeaveTried(slot: Slot)
      requires Shape() && 0 <= slot.0 < TRIED_BUCKET_COUNT && 0 <= slot.1 < BUCKET_SIZE
      requires slot in View().triedTable && View().triedTable[slot] in mapInfo
      modifies this, vvTried
      ensures View() == AddrManState.LeaveTried(env, old(View()), slot)
    {
      hide Table;
      var id := TriedAt(slot);
      mapInfo := mapInfo[id := mapInfo[id].(inTried := false)];
      SetTried(slot, -1);
      nTried := nTried - 1;
      AdjustCount(env.network(mapInfo[id].service.ip), 0, -1);
    }

    method ReenterNew(slot: Slot, id: int)
      requires Shape() && id in mapInfo && id >= 0
      requires slot == NewSlot(env, nKey, mapInfo[id].service, mapInfo[id].source)
      modifies this, vvNew
      ensures View() == AddrManState.ReenterNew(env, old(View()), id)
    {
      hide Table, Position, NewBucket;
      mapInfo := mapInfo[id := mapInfo[id].(refCount := 1)];
      SetNew(slot, id);
      nNew := nNew + 1;
      AdjustCount(env.network(mapInfo[id].service.ip), 1, 0);
    }

    /** Puts the occupant of a tried slot back into the new table. */
    method Evict(slot: Slot, ghost limbo: set<int>)
      requires Shape() && Inv(env, View(), limbo, limbo) && slot in View().triedTable
      requires 0 <= slot.0 < TRIED_BUCKET_COUNT && 0 <= slot.1 < BUCKET_SIZE
      modifies this, vvNew, vvTried
      ensures View() == AddrManOps.Evict(env, old(View()), slot, limbo)
    {
      hide MapsOk, RandomOk, NewOk, TriedOk, CountsOk, AddressesOk, LiveOk, Table, AddrManState.ClearNew, Position, NewBucket;
      ghost var s := View();
      LeaveTriedKeeps(env, s, slot, limbo);
      var id := TriedAt(slot);
      LeaveTried(slot);
      ghost var s2 := View();
      var newSlot := NewSlot(env, nKey, mapInfo[id].service, mapInfo[id].source);
      ClearNewKeeps(env, s2, newSlot, limbo + {id}, limbo + {id});
      EvictedStays(env, s2, id, newSlot, limbo + {id});
      ClearNew(newSlot);
      ReenterNew(newSlot, id);
    }

    method MakeTried(id: int)
      requires Shape() && Inv(env, View(), {}, {}) && id in mapInfo && !mapInfo[id].inTried
      modifies this, vvNew, vvTried
      ensures View() == AddrManOps.MakeTried(env, old(View()), id)
    {
      hide MapsOk, RandomOk, NewOk, TriedOk, CountsOk, AddressesOk, LiveOk, Table, AddrManOps.Evict, Position, TriedBucket, Kept;
      ghost var s := View();
      UntriedIsReferenced(s, id);
      RemoveFromNew(id);
      nNew := nNew - 1;
      AdjustCount(env.network(mapInfo[id].service.ip), -1, 0);
      ghost var s1 := View();
      assert s1 == StripNew(env, s, id);
      StripNewKeeps(env, s, id);
      var slot := TriedSlot(env, nKey, mapInfo[id].service);
      var occupant := TriedAt(slot);
      if occupant != -1 {
        EvictKeeps(env, s1, slot, {id});
        Evict(slot, {id});
        LimboStays(s1, View(), id);
      }
      ghost var s4 := View();
      EnterTried(slot, id);
    }

    method EnterTried(slot: Slot, id: int)
      requires Shape() && id in mapInfo && id >= 0 && slot == TriedSlot(env, nKey, mapInfo[id].service)
      modifies this, vvTried
      ensures View() == AddrManState.EnterTried(env, old(View()), id)
    {
      hide Table;
      SetTried(slot, id);
      nTried := nTried + 1;
      mapInfo := mapInfo[id := mapInfo[id].(inTried := true)];
      AdjustCount(env.network(mapInfo[id].service.ip), 0, 1);
    }

    // ---------- Add ----------

    method Find(a: Service) returns (id: Option<int>)
      ensures id == AddrManState.Find(View(), a)
    {
      if a !in mapAddr || mapAddr[a] !in mapInfo {
        return None;
      }
      return Some(mapAddr[a]);
    }

    method AddRef(slot: Slot, id: int)
      requires Shape() && id in mapInfo && id >= 0 && 0 <= slot.0 < NEW_BUCKET_COUNT && 0 <= slot.1 < BUCKET_SIZE
      modifies this, vvNew
      ensures View() == AddrManOps.AddRef(old(View()), id, slot)
    {
      hide Table;
      mapInfo := mapInfo[id := mapInfo[id].(refCount := mapInfo[id].refCount + 1)];
      SetNew(slot, id);
    }

    method StoreNew(id: int, source: nat, now: int, ghost idle: set<int>) returns (stored: bool)
      requires Shape() && Inv(env, View(), {}, idle) && id in mapInfo && !mapInfo[id].inTried && idle <= {id}
      modifies this, vvNew
      ensures (View(), stored) == AddrManOps.StoreNew(env, old(View()), id, source, now, idle)
    {
      hide MapsOk, RandomOk, NewOk, TriedOk, CountsOk, AddressesOk, LiveOk, Table, AddrManState.ClearNew, AddrManState.Delete,
           AddrManOps.AddRef, Position, NewBucket, IsTerrible;
      ghost var s := View();
      IdIsNat(s, id);
      var slot := NewSlot(env, nKey, mapInfo[id].service, source);
      var occupant := NewAt(slot);
      stored := occupant == -1;
      if occupant != id {
        if !stored {
          HolderIsLive(env, s, slot);
          if IsTerrible(mapInfo[occupant], now) || (mapInfo[occupant].refCount > 1 && mapInfo[id].refCount == 0) {
            stored := true;
          }
        }
        if stored {
          ClearNewFrame(env, s, slot);
          ClearNew(slot);
          AddRef(slot, id);
        } else if mapInfo[id].refCount == 0 {
          Delete(id);
        }
      }
    }

    method AddSingle(o: Offer, source: nat, timePenalty: int) returns (added: bool)
      requires Shape() && Inv(env, View(), {}, {})
      modifies this, vvNew
      ensures (View(), added) == AddrManOps.AddSingle(env, old(View()), o, source, timePenalty)
    {
      hide MapsOk, RandomOk, NewOk, TriedOk, CountsOk, AddressesOk, LiveOk, Table, AddrManOps.StoreNew, AddrManState.Create;
      if !Routable(env, o.addr.service.ip) {
        return false;
      }
      var penalty := if o.addr.service.ip == source then 0 else timePenalty;
      var found := Find(o.addr.service);
      ghost var s := View();
      if found.Some? {
        added := AddKnown(o, found.value, source, penalty);
      } else {
        var id := Create(o.addr, source);
        AnnounceKeeps(env, s, o, source, penalty);
        CreatedEntry(env, s, o.addr, source);
        mapInfo := mapInfo[id := mapInfo[id].(time := Max(0, o.addr.time - penalty))];
        added := StoreNew(id, source, o.terribleNow, {id});
      }
    }

    method RefreshEntry(id: int, o: Offer, penalty: int)
      requires id in mapInfo
      modifies this`mapInfo
      ensures View() == SetInfo(old(View()), id, Refresh(old(mapInfo[id]), o.addr, penalty, o.now))
    {
      hide Table;
      var interval := if o.now - o.addr.time < 24 * 3600 then 3600 else 24 * 3600;
      if mapInfo[id].time < o.addr.time - interval - penalty {
        mapInfo := mapInfo[id := mapInfo[id].(time := Max(0, o.addr.time - penalty))];
      }
      mapInfo := mapInfo[id := mapInfo[id].(services := mapInfo[id].services + o.addr.services)];
    }

    method AddKnown(o: Offer, id: int, source: nat, penalty: int) returns (added: bool)
      requires Shape() && Inv(env, View(), {}, {}) && id in mapInfo
      modifies this, vvNew
      ensures (View(), added) == AddrManOps.AddKnown(env, old(View()), o, id, source, penalty)
    {
      hide MapsOk, RandomOk, NewOk, TriedOk, CountsOk, AddressesOk, LiveOk, Table, AddrManOps.StoreNew, Lucky;
      ghost var s := View();
      RefreshEntry(id, o, penalty);
      var i := mapInfo[id];
      if o.addr.time <= i.time || i.inTried || i.refCount == NEW_BUCKETS_PER_ADDRESS {
        return false;
      }
      var lucky := TryLuck(o.draw, i.refCount);
      if !lucky {
        return false;
      }
      SetInfoKeeps(env, s, id, i, {});
      added := StoreNew(id, source, o.terribleNow, {});
    }

    /** The stochastic test, twice as hard with every reference. */
    static method TryLuck(draw: nat, refCount: int) returns (lucky: bool)
      ensures lucky == Lucky(draw, refCount)
    {
      var factor := 1;
      var n := 0;
      while n < refCount
        invariant 0 <= n && (n <= refCount || n == 0) && factor == Pow2(n)
      {
        factor := factor * 2;
        n := n + 1;
      }
      lucky := !(factor > 1 && draw % factor != 0);
    }

    method Add(offers: seq<Offer>, source: nat, timePenalty: int) returns (any: bool)
      requires Shape() && Inv(env, View(), {}, {})
      modifies this, vvNew
      ensures View() == AddAll(env, old(View()), offers, source, timePenalty)
      ensures any <==> exists k :: 0 <= k < |offers| && AddedAt(env, old(View()), offers, source, timePenalty, k)
    {
      hide Inv, AddrManOps.AddSingle, Table;
      var added, n := 0, 0;
      ghost var s := View();
      assert offers[..0] == [];
      while n < |offers|
        invariant 0 <= n <= |offers| && added >= 0 && Inv(env, View(), {}, {})
        invariant View() == AddAll(env, s, offers[..n], source, timePenalty)
        invariant added > 0 <==> exists k :: 0 <= k < n && AddedAt(env, s, offers, source, timePenalty, k)
      {
        AddSingleKeeps(env, View(), offers[n], source, timePenalty);
        AddAllMore(env, s, offers, source, timePenalty, n);
        var ok := AddSingle(offers[n], source, timePenalty);
        assert ok == AddedAt(env, s, offers, source, timePenalty, n);
        added := added + if ok then 1 else 0;
        n := n + 1;
      }
      assert offers[..n] == offers;
      any := added > 0;
    }

    // ---------- Good ----------

    method Good(a: Service, testBeforeEvict: bool, time: int) returns (moved: bool)
      requires Shape() && Inv(env, View(), {}, {})
      modifies this, vvNew, vvTried
      ensures (View(), moved) == AddrManOps.Good(env, old(View()), a, testBeforeEvict, time)
    {
      hide MapsOk, RandomOk, NewOk, TriedOk, CountsOk, AddressesOk, LiveOk, Table, AddrManOps.MakeTried, Position, TriedBucket;
      ghost var s := View();
      lastGood := time;
      var found := Find(a);
      if found.None? {
        return false;
      }
      var id := found.value;
      mapInfo := mapInfo[id := mapInfo[id].(lastSuccess := time, lastTry := time, attempts := 0)];
      assert View() == Succeed(s, id, time);
      SucceedKeeps(env, s, id, time);
      if mapInfo[id].inTried || mapInfo[id].refCount <= 0 {
        return false;
      }
      var occupant := TriedAt(TriedSlot(env, nKey, mapInfo[id].service));
      if testBeforeEvict && occupant != -1 {
        if |triedCollisions| < TRIED_COLLISION_SIZE {
          triedCollisions := triedCollisions + {id};
        }
        return false;
      }
      MakeTried(id);
      return true;
    }

    // ---------- smaller updates ----------

    method Attempt(a: Service, countFailure: bool, time: int)
      modifies this`mapInfo
      ensures View() == AddrManOps.Attempt(old(View()), a, countFailure, time)
    {
      hide Table;
      var found := Find(a);
      if found.Some? {
        var id := found.value;
        mapInfo := mapInfo[id := mapInfo[id].(lastTry := time)];
        if countFailure && mapInfo[id].lastCountAttempt < lastGood {
          mapInfo := mapInfo[id := mapInfo[id].(lastCountAttempt := time, attempts := mapInfo[id].attempts + 1)];
        }
      }
    }

    method Connected(a: Service, time: int)
      modifies this`mapInfo
      ensures View() == AddrManOps.Connected(old(View()), a, time)
    {
      hide Table;
      var found := Find(a);
      if found.Some? && time - mapInfo[found.value].time > 20 * 60 {
        mapInfo := mapInfo[found.value := mapInfo[found.value].(time := time)];
      }
    }

    method SetServices(a: Service, services: set<nat>)
      modifies this`mapInfo
      ensures View() == AddrManOps.SetServices(old(View()), a, services)
    {
      hide Table;
      var found := Find(a);
      if found.Some? {
        mapInfo := mapInfo[found.value := mapInfo[found.value].(services := services)];
      }
    }

    // ---------- tried collisions ----------

    method ResolveOne(id: int, now: int)
      requires Shape() && Inv(env, View(), {}, {})
      modifies this, vvNew, vvTried
      ensures View() == AddrManOps.ResolveOne(env, old(View()), id, now)
    {
      hide MapsOk, RandomOk, NewOk, CountsOk, AddressesOk, LiveOk, Table, AddrManOps.Good, Position, TriedBucket;
      ghost var s := View();
      var erase := false;
      if id !in mapInfo {
        erase := true;
      } else {
        var i := mapInfo[id];
        var slot := TriedSlot(env, nKey, i.service);
        var occupant := TriedAt(slot);
        if !env.valid(i.service.ip) {
          erase := true;
        } else if occupant != -1 {
          TriedIsTried(env, s, slot, occupant);
          var o := mapInfo[occupant];
          if now - o.lastSuccess < REPLACEMENT {
            erase := true;
          } else if now - o.lastTry < REPLACEMENT {
            if now - o.lastTry > 60 {
              var _ := Good(i.service, false, now);
              erase := true;
            }
          } else if now - i.lastSuccess > TEST_WINDOW {
            var _ := Good(i.service, false, now);
            erase := true;
          }
        } else {
          var _ := Good(i.service, false, now);
          erase := true;
        }
      }
      if erase {
        triedCollisions := triedCollisions - {id};
      }
    }

    method ResolveCollisions(clock: int -> int)
      requires Shape() && Consistent(env, View())
      modifies this, vvNew, vvTried
      ensures View() == ResolveFrom(env, old(View()), old(View()).collisions, clock)
    {
      hide Inv, CollisionsOk, Table, AddrManOps.ResolveOne;
      ghost var s := View();
      var pending := triedCollisions;
      while pending != {}
        invariant Consistent(env, View())
        invariant ResolveFrom(env, s, s.collisions, clock) == ResolveFrom(env, View(), pending, clock)
        decreases |pending|
      {
        LeastExists(pending);
        var id :| id in pending && forall x :: x in pending ==> id <= x;
        assert id == Least(pending);
        ResolveOneKeeps(env, View(), id, clock(id));
        ResolveOne(id, clock(id));
        pending := pending - {id};
      }
    }

    method SelectTriedCollision(pick: int) returns (id: Option<int>)
      requires Shape() && Consistent(env, View()) && (pick in triedCollisions || triedCollisions == {})
      modifies this`triedCollisions
      ensures (View(), id) == AddrManRun.SelectTriedCollision(env, old(View()), pick)
    {
      hide Inv, Table, Position, TriedBucket;
      if triedCollisions == {} {
        return None;
      }
      if pick !in mapInfo {
        triedCollisions := triedCollisions - {pick};
        return None;
      }
      SlotTaken(env, View(), pick);
      var occupant := TriedAt(TriedSlot(env, nKey, mapInfo[pick].service));
      return Some(occupant);
    }

    // ---------- GetAddr ----------

    /** Shuffles the entry at position p into position n and takes it if it is eligible. */
    method TakeNext(n: nat, p: int, network: Option<nat>, now: int, taken: seq<int>) returns (ids: seq<int>)
      requires RandomOk(View()) && n <= p < |vRandom|
      modifies this`mapInfo, this`vRandom
      ensures View() == AddrManState.SwapRandom(old(View()), n, p)
      ensures RandomOk(View()) && |vRandom| == |old(vRandom)| && ids == TakenNext(env, View(), n, network, now, taken)
    {
      hide RandomOk, Table, Eligible, AddrManState.SwapRandom;
      SwapShuffles(View(), n, p);
      SwapRandom(n, p);
      var id := vRandom[n];
      RandomIsLive(View(), n);
      ids := if Eligible(env, mapInfo[id], network, now) then taken + [id] else taken;
    }

    method GetAddr(maxAddresses: nat, maxPct: nat, network: Option<nat>, draws: nat -> nat, now: int) returns (ids: seq<int>)
      requires Inv(env, View(), {}, {})
      modifies this`mapInfo, this`vRandom
      ensures (View(), ids) == AddrManRun.GetAddr(env, old(View()), maxAddresses, maxPct, network, draws, now)
    {
      hide MapsOk, RandomOk, NewOk, TriedOk, CountsOk, AddressesOk, LiveOk, Table, TakenNext, AddrManState.SwapRandom, GetAddrFrom;
      ghost var s := View();
      var limit := Limit(|vRandom|, maxAddresses, maxPct);
      ids := [];
      var n := 0;
      while n < |vRandom| && |ids| < limit
        invariant 0 <= n <= |vRandom| && RandomOk(View())
        invariant GetAddrFrom(env, s, 0, limit, draws, network, now, [])
               == GetAddrFrom(env, View(), n, limit, draws, network, now, ids)
      {
        GetAddrStep(env, View(), n, limit, draws, network, now, ids);
        ids := TakeNext(n, Draw(draws, n, |vRandom|), network, now, ids);
        n := n + 1;
      }
      GetAddrEnd(env, View(), n, limit, draws, network, now, ids);
    }
  }
}

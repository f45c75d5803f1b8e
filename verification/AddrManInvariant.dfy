/** What the primitive operations of the address manager keep. */
module AddrManInvariant {
  import opened Options
  import opened AddrManState

  // ---------- counting ----------

  function Bit(b: bool): int { if b then 1 else 0 }

  lemma {:induction false} SetFlip(a: set<int>, b: set<int>, x: int)
    requires forall id :: id != x ==> (id in a <==> id in b)
    ensures |b| == |a| + Bit(x in b) - Bit(x in a)
  {
    assert a - {x} == b - {x} by {
      forall id ensures id in a - {x} <==> id in b - {x} {}
    }
    assert |a - {x}| == |a| - Bit(x in a);
    assert |b - {x}| == |b| - Bit(x in b);
  }

  /** An entry is counted on the same side, for the same network, before and after. */
  ghost predicate SameSide(info: map<int, AddrInfo>, limbo: set<int>, info': map<int, AddrInfo>, limbo': set<int>, id: int) {
    && (id in info && id !in limbo <==> id in info' && id !in limbo')
    && (id in info && id in info' ==>
          info[id].inTried == info'[id].inTried && info[id].service == info'[id].service)
  }

  ghost predicate SideOf(info: map<int, AddrInfo>, limbo: set<int>, x: int, tried: bool) {
    x in info && x !in limbo && info[x].inTried == tried
  }

  /** If only entry x may change sides, the count of a side moves by one, for x alone. */
  lemma {:induction false} MemberFlip(env: Env, info: map<int, AddrInfo>, limbo: set<int>, info': map<int, AddrInfo>, limbo': set<int>,
                   x: int, service: Service, tried: bool, net: Option<nat>)
    requires forall id :: id != x ==> SameSide(info, limbo, info', limbo', id)
    requires x in info ==> info[x].service == service
    requires x in info' ==> info'[x].service == service
    ensures |Members(env, info', limbo', tried, net)|
         == |Members(env, info, limbo, tried, net)|
            + if net.None? || env.network(service.ip) == net.value
              then Bit(SideOf(info', limbo', x, tried)) - Bit(SideOf(info, limbo, x, tried)) else 0
  {
    var a, b := Members(env, info, limbo, tried, net), Members(env, info', limbo', tried, net);
    forall id | id != x ensures id in a <==> id in b {
      assert SameSide(info, limbo, info', limbo', id);
    }
    SetFlip(a, b, x);
  }

  /** The counters follow when one entry changes sides and the counters of its network with it. */
  lemma {:induction false} CountsFollow(env: Env, s: State, limbo: set<int>, t: State, limbo': set<int>, x: int, service: Service,
                     dNew: int, dTried: int)
    requires CountsOk(env, s, limbo)
    requires forall id :: id != x ==> SameSide(s.info, limbo, t.info, limbo', id)
    requires x in s.info ==> s.info[x].service == service
    requires x in t.info ==> t.info[x].service == service
    requires dNew == Bit(SideOf(t.info, limbo', x, false)) - Bit(SideOf(s.info, limbo, x, false))
    requires dTried == Bit(SideOf(t.info, limbo', x, true)) - Bit(SideOf(s.info, limbo, x, true))
    requires t.nNew == s.nNew + dNew && t.nTried == s.nTried + dTried
    requires t.counts == Adjust(s, env.network(service.ip), dNew, dTried)
    ensures CountsOk(env, t, limbo')
  {
    MemberFlip(env, s.info, limbo, t.info, limbo', x, service, false, None);
    MemberFlip(env, s.info, limbo, t.info, limbo', x, service, true, None);
    forall net: nat
      ensures CountOf(t, net).nNew == |Members(env, t.info, limbo', false, Some(net))|
      ensures CountOf(t, net).nTried == |Members(env, t.info, limbo', true, Some(net))|
    {
      MemberFlip(env, s.info, limbo, t.info, limbo', x, service, false, Some(net));
      MemberFlip(env, s.info, limbo, t.info, limbo', x, service, true, Some(net));
    }
  }

  lemma {:induction false} MembersStay(env: Env, info: map<int, AddrInfo>, info': map<int, AddrInfo>, limbo: set<int>, tried: bool, net: Option<nat>)
    requires forall id :: SameSide(info, limbo, info', limbo, id)
    ensures Members(env, info, limbo, tried, net) == Members(env, info', limbo, tried, net)
  {
    var a, b := Members(env, info, limbo, tried, net), Members(env, info', limbo, tried, net);
    forall id ensures id in a <==> id in b {
      assert SameSide(info, limbo, info', limbo, id);
    }
  }

  /** The counters are untouched when no entry changes sides. */
  lemma {:induction false} CountsStay(env: Env, s: State, t: State, limbo: set<int>)
    requires CountsOk(env, s, limbo)
    requires forall id :: SameSide(s.info, limbo, t.info, limbo, id)
    requires t.nNew == s.nNew && t.nTried == s.nTried && t.counts == s.counts
    ensures CountsOk(env, t, limbo)
  {
    MembersStay(env, s.info, t.info, limbo, false, None);
    MembersStay(env, s.info, t.info, limbo, true, None);
    forall net: nat
      ensures CountOf(t, net).nNew == |Members(env, t.info, limbo, false, Some(net))|
      ensures CountOf(t, net).nTried == |Members(env, t.info, limbo, true, Some(net))|
    {
      MembersStay(env, s.info, t.info, limbo, false, Some(net));
      MembersStay(env, s.info, t.info, limbo, true, Some(net));
    }
  }

  // ---------- references ----------

  lemma {:induction false} RefsAdd(table: map<Slot, int>, slot: Slot, id: int, x: int)
    requires slot !in table
    ensures |Refs(table[slot := id], x)| == |Refs(table, x)| + Bit(x == id)
  {
    if x == id {
      assert Refs(table[slot := id], x) == Refs(table, x) + {slot};
    } else {
      assert Refs(table[slot := id], x) == Refs(table, x);
    }
  }

  lemma {:induction false} RefsRemove(table: map<Slot, int>, slot: Slot, x: int)
    requires slot in table
    ensures |Refs(table - {slot}, x)| == |Refs(table, x)| - Bit(x == table[slot])
  {
    if x == table[slot] {
      assert Refs(table - {slot}, x) == Refs(table, x) - {slot};
    } else {
      assert Refs(table - {slot}, x) == Refs(table, x);
    }
  }

  // ---------- primitive operations ----------

  lemma {:induction false} SwapRandomKeeps(s: State, i: int, j: int)
    requires RandomOk(s)
    requires 0 <= i < |s.random| && 0 <= j < |s.random|
    ensures RandomOk(SwapRandom(s, i, j))
  {
    var t := SwapRandom(s, i, j);
    if i != j {
      var x, y := s.random[i], s.random[j];
      assert x != y;
      forall k | 0 <= k < |t.random| ensures t.random[k] in t.info && t.info[t.random[k]].randomPos == k {
        var id := s.random[k];
        assert id in s.info && s.info[id].randomPos == k;
      }
    }
  }

  /** Equal in everything but the position in the random order. */
  ghost predicate SameEntry(i: AddrInfo, j: AddrInfo) {
    && i.service == j.service && i.services == j.services && i.time == j.time && i.source == j.source
    && i.lastTry == j.lastTry && i.lastCountAttempt == j.lastCountAttempt && i.lastSuccess == j.lastSuccess
    && i.attempts == j.attempts && i.refCount == j.refCount && i.inTried == j.inTried
  }

  lemma {:induction false} SwapRandomFrame(s: State, i: int, j: int)
    requires RandomOk(s)
    requires 0 <= i < |s.random| && 0 <= j < |s.random|
    ensures var t := SwapRandom(s, i, j);
      && t.info.Keys == s.info.Keys
      && (forall id :: id in s.info ==> SameEntry(s.info[id], t.info[id]))
  {
    var x, y := s.random[i], s.random[j];
    assert x in s.info && y in s.info;
  }

  /** The tried table does not depend on the untried entries. */
  lemma {:induction false} TriedStays(env: Env, s: State, t: State)
    requires TriedOk(env, s) && t.triedTable == s.triedTable && t.key == s.key
    requires forall id :: id in s.info && s.info[id].inTried ==>
      id in t.info && t.info[id].inTried && t.info[id].service == s.info[id].service
    requires forall id :: id in t.info && t.info[id].inTried ==> id in s.info && s.info[id].inTried
    ensures TriedOk(env, t)
  {
  }

  /** The tables do not depend on what else an entry records. */
  lemma {:induction false} TablesStay(env: Env, s: State, t: State)
    requires NewOk(env, s) && TriedOk(env, s)
    requires t.newTable == s.newTable && t.triedTable == s.triedTable && t.key == s.key && t.info.Keys == s.info.Keys
    requires forall id :: id in s.info ==>
      t.info[id].service == s.info[id].service && t.info[id].inTried == s.info[id].inTried && t.info[id].refCount == s.info[id].refCount
    ensures NewOk(env, t) && TriedOk(env, t)
  {
  }

  lemma {:induction false} RestStays(env: Env, s: State, t: State, limbo: set<int>, idle: set<int>)
    requires MapsOk(s) && CountsOk(env, s, limbo) && LiveOk(s, idle) && AddressesOk(env, s)
    requires t.triedTable == s.triedTable && t.key == s.key && t.info.Keys == s.info.Keys && t.idCount == s.idCount
    requires t.ids == s.ids
    requires t.nNew == s.nNew && t.nTried == s.nTried && t.counts == s.counts
    requires forall id :: id in s.info ==>
      t.info[id].service == s.info[id].service && t.info[id].inTried == s.info[id].inTried && t.info[id].refCount == s.info[id].refCount
    ensures MapsOk(t) && CountsOk(env, t, limbo) && LiveOk(t, idle) && AddressesOk(env, t)
  {
    CountsStay(env, s, t, limbo);
  }

  /** Everything but the random order survives a change of what an entry records beside its address
      and its place in the tables. */
  lemma {:induction false} InfoStays(env: Env, s: State, t: State, limbo: set<int>, idle: set<int>)
    requires Inv(env, s, limbo, idle) && RandomOk(t)
    requires t.newTable == s.newTable && t.triedTable == s.triedTable && t.key == s.key && t.info.Keys == s.info.Keys
    requires t.idCount == s.idCount && t.ids == s.ids
    requires t.nNew == s.nNew && t.nTried == s.nTried && t.counts == s.counts
    requires forall id :: id in s.info ==>
      t.info[id].service == s.info[id].service && t.info[id].inTried == s.info[id].inTried && t.info[id].refCount == s.info[id].refCount
    ensures Inv(env, t, limbo, idle)
  {
    hide MapsOk, RandomOk, NewOk, TriedOk, CountsOk, AddressesOk, LiveOk;
    TablesStay(env, s, t);
    RestStays(env, s, t, limbo, idle);
  }

  // ---------- Create ----------

  lemma {:induction false} CreateMaps(env: Env, s: State, a: Address, source: nat)
    requires MapsOk(s) && a.service !in s.ids
    ensures MapsOk(Create(env, s, a, source))
  {
  }

  lemma {:induction false} CreateRandom(env: Env, s: State, a: Address, source: nat)
    requires MapsOk(s) && RandomOk(s)
    ensures RandomOk(Create(env, s, a, source))
  {
    var t := Create(env, s, a, source);
    assert s.idCount !in s.info;
    forall k | 0 <= k < |t.random| ensures t.random[k] in t.info && t.info[t.random[k]].randomPos == k {
      if k < |s.random| {
        var id := s.random[k];
        assert id in s.info && s.info[id].randomPos == k;
      }
    }
  }

  lemma {:induction false} CreateTables(env: Env, s: State, a: Address, source: nat)
    requires MapsOk(s) && NewOk(env, s) && TriedOk(env, s)
    ensures NewOk(env, Create(env, s, a, source)) && TriedOk(env, Create(env, s, a, source))
  {
    assert Refs(s.newTable, s.idCount) == {};
  }

  lemma {:induction false} CreateRest(env: Env, s: State, a: Address, source: nat, idle: set<int>)
    requires MapsOk(s) && CountsOk(env, s, {}) && LiveOk(s, idle) && AddressesOk(env, s)
    requires Routable(env, a.service.ip)
    ensures var t := Create(env, s, a, source);
      CountsOk(env, t, {}) && LiveOk(t, idle + {s.idCount}) && AddressesOk(env, t)
  {
    var t := Create(env, s, a, source);
    CountsFollow(env, s, {}, t, {}, s.idCount, a.service, 1, 0);
  }

  lemma {:induction false} CreateKeeps(env: Env, s: State, a: Address, source: nat, idle: set<int>)
    requires Inv(env, s, {}, idle)
    requires a.service !in s.ids && Routable(env, a.service.ip)
    ensures Inv(env, Create(env, s, a, source), {}, idle + {s.idCount})
  {
    hide MapsOk, RandomOk, NewOk, TriedOk, CountsOk, AddressesOk, LiveOk;
    CreateMaps(env, s, a, source);
    CreateRandom(env, s, a, source);
    CreateTables(env, s, a, source);
    CreateRest(env, s, a, source, idle);
  }

  // ---------- Delete ----------

  lemma {:induction false} DropMaps(env: Env, s: State, id: int)
    requires MapsOk(s) && RandomOk(s)
    requires id in s.info && s.info[id].randomPos == |s.random| - 1
    ensures MapsOk(DropLast(env, s, id)) && RandomOk(DropLast(env, s, id))
  {
  }

  lemma {:induction false} DropTables(env: Env, s: State, id: int)
    requires NewOk(env, s) && TriedOk(env, s)
    requires id in s.info && |s.random| > 0 && !s.info[id].inTried && s.info[id].refCount == 0
    ensures NewOk(env, DropLast(env, s, id)) && TriedOk(env, DropLast(env, s, id))
  {
    assert Refs(s.newTable, id) == {};
    forall slot | slot in s.newTable ensures s.newTable[slot] != id {
      assert slot !in Refs(s.newTable, id);
    }
    TriedStays(env, s, DropLast(env, s, id));
  }

  lemma {:induction false} DropRest(env: Env, s: State, id: int, limbo: set<int>, idle: set<int>)
    requires CountsOk(env, s, limbo) && LiveOk(s, idle) && AddressesOk(env, s)
    requires id in idle && id !in limbo && |s.random| > 0
    ensures var t := DropLast(env, s, id);
      CountsOk(env, t, limbo) && LiveOk(t, idle - {id}) && AddressesOk(env, t)
  {
    var t := DropLast(env, s, id);
    CountsFollow(env, s, limbo, t, limbo, id, s.info[id].service, -1, 0);
  }

  /** Before an entry is dropped it is brought to the end of the random order. */
  lemma {:induction false} SwapToLast(s: State, id: int)
    requires RandomOk(s) && id in s.info
    ensures 0 <= s.info[id].randomPos < |s.random|
    ensures var t := SwapRandom(s, s.info[id].randomPos, |s.random| - 1);
      id in t.info && t.info[id].randomPos == |t.random| - 1
  {
  }

  lemma {:induction false} DropKeeps(env: Env, s: State, id: int, limbo: set<int>, idle: set<int>)
    requires Inv(env, s, limbo, idle)
    requires id in idle && id !in limbo && s.info[id].randomPos == |s.random| - 1
    ensures Inv(env, DropLast(env, s, id), limbo, idle - {id})
  {
    SwapToLast(s, id);
    hide MapsOk, RandomOk, NewOk, TriedOk, CountsOk, AddressesOk;
    DropMaps(env, s, id);
    DropTables(env, s, id);
    DropRest(env, s, id, limbo, idle);
  }

  lemma {:induction false} SwapKeeps(env: Env, s: State, i: int, j: int, limbo: set<int>, idle: set<int>)
    requires Inv(env, s, limbo, idle) && 0 <= i < |s.random| && 0 <= j < |s.random|
    ensures Inv(env, SwapRandom(s, i, j), limbo, idle)
  {
    hide MapsOk, RandomOk, NewOk, TriedOk, CountsOk, AddressesOk, LiveOk;
    SwapRandomKeeps(s, i, j);
    SwapRandomFrame(s, i, j);
    InfoStays(env, s, SwapRandom(s, i, j), limbo, idle);
  }

  lemma {:induction false} DeleteKeeps(env: Env, s: State, id: int, limbo: set<int>, idle: set<int>)
    requires Inv(env, s, limbo, idle)
    requires id in idle && id !in limbo
    ensures Inv(env, Delete(env, s, id), limbo, idle - {id})
  {
    hide MapsOk, RandomOk, NewOk, TriedOk, CountsOk, AddressesOk, SwapRandom, DropLast;
    SwapToLast(s, id);
    var p := s.info[id].randomPos;
    SwapKeeps(env, s, p, |s.random| - 1, limbo, idle);
    DropKeeps(env, SwapRandom(s, p, |s.random| - 1), id, limbo, idle);
  }

  // ---------- ClearNew ----------

  /** Ids, addresses and random positions are unaffected by what an entry says about the tables. */
  lemma {:induction false} EntryUpdate(env: Env, s: State, t: State)
    requires MapsOk(s) && RandomOk(s) && AddressesOk(env, s)
    requires t.ids == s.ids && t.idCount == s.idCount && t.random == s.random && t.info.Keys == s.info.Keys
    requires forall id :: id in s.info ==>
      t.info[id].service == s.info[id].service && t.info[id].randomPos == s.info[id].randomPos
    ensures MapsOk(t) && RandomOk(t) && AddressesOk(env, t)
  {
  }

  lemma {:induction false} DropRefTables(env: Env, s: State, slot: Slot)
    requires NewOk(env, s) && TriedOk(env, s) && slot in s.newTable
    ensures NewOk(env, DropRef(s, slot)) && TriedOk(env, DropRef(s, slot))
  {
    var t := DropRef(s, slot);
    forall id | id in t.info ensures t.info[id].refCount == |Refs(t.newTable, id)| <= NEW_BUCKETS_PER_ADDRESS {
      RefsRemove(s.newTable, slot, id);
    }
  }

  function DropRefIdle(s: State, slot: Slot, idle: set<int>): set<int>
    requires slot in s.newTable && s.newTable[slot] in s.info
  {
    if s.info[s.newTable[slot]].refCount == 1 then idle + {s.newTable[slot]} else idle
  }

  lemma {:induction false} DropRefRest(env: Env, s: State, slot: Slot, limbo: set<int>, idle: set<int>)
    requires NewOk(env, s) && slot in s.newTable
    requires CountsOk(env, s, limbo) && LiveOk(s, idle)
    ensures var t := DropRef(s, slot);
      CountsOk(env, t, limbo) && LiveOk(t, DropRefIdle(s, slot, idle))
    ensures s.newTable[slot] in s.info && s.newTable[slot] !in idle
  {
    CountsStay(env, s, DropRef(s, slot), limbo);
    assert slot in Refs(s.newTable, s.newTable[slot]);
  }

  lemma {:induction false} DropRefKeeps(env: Env, s: State, slot: Slot, limbo: set<int>, idle: set<int>)
    requires Inv(env, s, limbo, idle) && slot in s.newTable
    ensures s.newTable[slot] in s.info && s.newTable[slot] !in idle
    ensures Inv(env, DropRef(s, slot), limbo, DropRefIdle(s, slot, idle))
  {
    hide NewOk, TriedOk, CountsOk, MapsOk, RandomOk, AddressesOk, LiveOk;
    DropRefTables(env, s, slot);
    DropRefRest(env, s, slot, limbo, idle);
    EntryUpdate(env, s, DropRef(s, slot));
  }

  lemma {:induction false} ClearNewKeeps(env: Env, s: State, slot: Slot, limbo: set<int>, idle: set<int>)
    requires Inv(env, s, limbo, idle)
    ensures Inv(env, ClearNew(env, s, slot), limbo, idle)
  {
    hide NewOk, TriedOk, CountsOk, MapsOk, RandomOk, AddressesOk;
    if slot in s.newTable {
      DropRefKeeps(env, s, slot, limbo, idle);
      var id := s.newTable[slot];
      var t := DropRef(s, slot);
      if t.info[id].refCount == 0 {
        DeleteKeeps(env, t, id, limbo, idle + {id});
        assert idle + {id} - {id} == idle;
      }
    }
  }

  // ---------- the steps of MakeTried ----------

  lemma {:induction false} StripNewTable(env: Env, s: State, id: int)
    requires NewOk(env, s) && id in s.info && !s.info[id].inTried
    ensures NewOk(env, StripNew(env, s, id))
  {
    var t := StripNew(env, s, id);
    forall x | x in t.info ensures t.info[x].refCount == |Refs(t.newTable, x)| <= NEW_BUCKETS_PER_ADDRESS {
      if x == id {
        assert Refs(t.newTable, x) == {};
      } else {
        assert Refs(t.newTable, x) == Refs(s.newTable, x);
      }
    }
  }

  lemma {:induction false} StripNewRest(env: Env, s: State, id: int)
    requires CountsOk(env, s, {}) && LiveOk(s, {}) && id in s.info && !s.info[id].inTried
    ensures CountsOk(env, StripNew(env, s, id), {id}) && LiveOk(StripNew(env, s, id), {id})
  {
    CountsFollow(env, s, {}, StripNew(env, s, id), {id}, id, s.info[id].service, -1, 0);
  }

  lemma {:induction false} StripNewKeeps(env: Env, s: State, id: int)
    requires Inv(env, s, {}, {}) && id in s.info && !s.info[id].inTried
    ensures Inv(env, StripNew(env, s, id), {id}, {id})
  {
    hide NewOk, TriedOk, CountsOk, MapsOk, RandomOk, AddressesOk, LiveOk;
    StripNewTable(env, s, id);
    TriedStays(env, s, StripNew(env, s, id));
    StripNewRest(env, s, id);
    EntryUpdate(env, s, StripNew(env, s, id));
  }

  lemma {:induction false} LeaveTriedNew(env: Env, s: State, slot: Slot)
    requires NewOk(env, s) && TriedOk(env, s) && slot in s.triedTable
    ensures s.triedTable[slot] in s.info && s.info[s.triedTable[slot]].inTried && s.info[s.triedTable[slot]].refCount == 0
    ensures NewOk(env, LeaveTried(env, s, slot))
  {
    hide Position, TriedSlot, Adjust;
    var id := s.triedTable[slot];
    assert id in s.info && s.info[id].inTried;
    assert Refs(s.newTable, id) == {};
  }

  lemma {:induction false} LeaveTriedTable(env: Env, s: State, slot: Slot)
    requires TriedOk(env, s) && slot in s.triedTable
    ensures s.triedTable[slot] in s.info && TriedOk(env, LeaveTried(env, s, slot))
  {
    var id := s.triedTable[slot];
    assert id in s.info && s.info[id].inTried;
    var t := LeaveTried(env, s, slot);
    forall x | x in t.info && t.info[x].inTried
      ensures var p := TriedSlot(env, t.key, t.info[x].service); p in t.triedTable && t.triedTable[p] == x
    {
      assert x in s.info && s.info[x].inTried;
    }
    forall p | p in t.triedTable
      ensures var x := t.triedTable[p]; x in t.info && t.info[x].inTried && p == TriedSlot(env, t.key, t.info[x].service)
    {
      var x := s.triedTable[p];
      assert x in s.info && p == TriedSlot(env, s.key, s.info[x].service);
    }
  }

  lemma {:induction false} LeaveTriedRest(env: Env, s: State, slot: Slot, limbo: set<int>)
    requires slot in s.triedTable && s.triedTable[slot] in s.info && s.info[s.triedTable[slot]].inTried
    requires s.info[s.triedTable[slot]].refCount == 0
    requires CountsOk(env, s, limbo) && LiveOk(s, limbo)
    ensures CountsOk(env, LeaveTried(env, s, slot), limbo + {s.triedTable[slot]})
    ensures LiveOk(LeaveTried(env, s, slot), limbo + {s.triedTable[slot]})
  {
    var id := s.triedTable[slot];
    CountsFollow(env, s, limbo, LeaveTried(env, s, slot), limbo + {id}, id, s.info[id].service, 0, -1);
  }

  lemma {:induction false} LeaveTriedKeeps(env: Env, s: State, slot: Slot, limbo: set<int>)
    requires Inv(env, s, limbo, limbo) && slot in s.triedTable
    ensures s.triedTable[slot] in s.info && s.triedTable[slot] !in limbo
    ensures Inv(env, LeaveTried(env, s, slot), limbo + {s.triedTable[slot]}, limbo + {s.triedTable[slot]})
  {
    hide NewOk, TriedOk, CountsOk, MapsOk, RandomOk, AddressesOk;
    LeaveTriedNew(env, s, slot);
    LeaveTriedTable(env, s, slot);
    LeaveTriedRest(env, s, slot, limbo);
    EntryUpdate(env, s, LeaveTried(env, s, slot));
  }

  lemma {:induction false} ReenterNewTable(env: Env, s: State, id: int)
    requires NewOk(env, s) && id in s.info && !s.info[id].inTried && s.info[id].refCount == 0
    requires NewSlot(env, s.key, s.info[id].service, s.info[id].source) !in s.newTable
    ensures NewOk(env, ReenterNew(env, s, id))
  {
    var t := ReenterNew(env, s, id);
    var slot := NewSlot(env, s.key, s.info[id].service, s.info[id].source);
    forall x | x in t.info ensures t.info[x].refCount == |Refs(t.newTable, x)| <= NEW_BUCKETS_PER_ADDRESS {
      RefsAdd(s.newTable, slot, id, x);
    }
  }

  lemma {:induction false} ReenterNewRest(env: Env, s: State, id: int, limbo: set<int>)
    requires CountsOk(env, s, limbo) && LiveOk(s, limbo) && id in limbo
    ensures CountsOk(env, ReenterNew(env, s, id), limbo - {id}) && LiveOk(ReenterNew(env, s, id), limbo - {id})
  {
    CountsFollow(env, s, limbo, ReenterNew(env, s, id), limbo - {id}, id, s.info[id].service, 1, 0);
  }

  lemma {:induction false} ReenterNewKeeps(env: Env, s: State, id: int, limbo: set<int>)
    requires Inv(env, s, limbo, limbo) && id in limbo
    requires id in s.info && NewSlot(env, s.key, s.info[id].service, s.info[id].source) !in s.newTable
    ensures Inv(env, ReenterNew(env, s, id), limbo - {id}, limbo - {id})
  {
    hide NewOk, TriedOk, CountsOk, MapsOk, RandomOk, AddressesOk;
    ReenterNewTable(env, s, id);
    TriedStays(env, s, ReenterNew(env, s, id));
    ReenterNewRest(env, s, id, limbo);
    EntryUpdate(env, s, ReenterNew(env, s, id));
  }

  lemma {:induction false} EnterTriedNew(env: Env, s: State, id: int)
    requires NewOk(env, s) && id in s.info && s.info[id].refCount == 0
    ensures NewOk(env, EnterTried(env, s, id))
  {
    var t := EnterTried(env, s, id);
    assert Refs(s.newTable, id) == {};
    forall slot | slot in t.newTable ensures s.newTable[slot] != id {
      assert slot !in Refs(s.newTable, id);
    }
  }

  lemma {:induction false} EnterTriedTable(env: Env, s: State, id: int)
    requires TriedOk(env, s) && id in s.info && !s.info[id].inTried
    requires TriedSlot(env, s.key, s.info[id].service) !in s.triedTable
    ensures TriedOk(env, EnterTried(env, s, id))
  {
    var t := EnterTried(env, s, id);
    forall x | x in t.info && t.info[x].inTried
      ensures var p := TriedSlot(env, t.key, t.info[x].service); p in t.triedTable && t.triedTable[p] == x
    {
      assert x != id ==> x in s.info && s.info[x].inTried;
    }
    forall p | p in t.triedTable
      ensures var x := t.triedTable[p]; x in t.info && t.info[x].inTried && p == TriedSlot(env, t.key, t.info[x].service)
    {
      if p in s.triedTable {
        var x := s.triedTable[p];
        assert x in s.info && s.info[x].inTried && p == TriedSlot(env, s.key, s.info[x].service);
      }
    }
  }

  lemma {:induction false} EnterTriedRest(env: Env, s: State, id: int)
    requires CountsOk(env, s, {id}) && LiveOk(s, {id})
    ensures CountsOk(env, EnterTried(env, s, id), {}) && LiveOk(EnterTried(env, s, id), {})
  {
    CountsFollow(env, s, {id}, EnterTried(env, s, id), {}, id, s.info[id].service, 0, 1);
  }

  lemma {:induction false} EnterTriedKeeps(env: Env, s: State, id: int)
    requires Inv(env, s, {id}, {id})
    requires TriedSlot(env, s.key, s.info[id].service) !in s.triedTable
    ensures Inv(env, EnterTried(env, s, id), {}, {})
  {
    hide NewOk, TriedOk, CountsOk, MapsOk, RandomOk, AddressesOk;
    EnterTriedNew(env, s, id);
    EnterTriedTable(env, s, id);
    EnterTriedRest(env, s, id);
    EntryUpdate(env, s, EnterTried(env, s, id));
  }
}

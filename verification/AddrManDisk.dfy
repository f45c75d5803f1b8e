/** Saving the address manager and loading it again. */
module AddrManDisk {
  import opened Options
  import opened AddrManState
  import opened AddrManInvariant
  import opened AddrManOps
  import opened AddrManRun
  import opened AddrManCheck

  const FILE_FORMAT := 4
  const INCOMPATIBILITY_BASE := 32

  /** The part of an entry that is written. */
  datatype Record = Record(service: Service, services: set<nat>, time: int, source: nat, lastSuccess: int, attempts: int)

  /** The file: the two lists of entries, and for each new bucket the indexes of its entries. The number of
      buckets is written with bit 30 flipped; the numbers of entries are the lengths of the lists. */
  datatype Disk = Disk(format: nat, compat: nat, key: Key, bucketCount: nat, news: seq<Record>, trieds: seq<Record>,
                       buckets: seq<seq<int>>, asmap: nat)

  datatype LoadResult = Loaded(s: State) | Incompatible | Corrupt

  function ToRecord(i: AddrInfo): Record {
    Record(i.service, i.services, i.time, i.source, i.lastSuccess, i.attempts)
  }

  function FromRecord(r: Record, randomPos: int): AddrInfo {
    AddrInfo(r.service, r.services, r.time, r.source, 0, 0, r.lastSuccess, r.attempts, 0, false, randomPos)
  }

  function FlipBit30(n: nat): nat {
    if n / 0x4000_0000 % 2 == 0 then n + 0x4000_0000 else n - 0x4000_0000
  }

  // ---------- saving ----------

  /** The ids of a list whose entries are in the new (or the tried) table, in the order of the list. */
  function Pick(info: map<int, AddrInfo>, order: seq<int>, tried: bool): seq<int> {
    if order == [] then [] else
      var front, id := Pick(info, order[..|order| - 1], tried), order[|order| - 1];
      if id in info && (if tried then info[id].inTried else info[id].refCount != 0) then front + [id] else front
  }

  function Records(info: map<int, AddrInfo>, ids: seq<int>): seq<Record>
    requires forall i :: 0 <= i < |ids| ==> ids[i] in info
  {
    seq(|ids|, i requires 0 <= i < |ids| => ToRecord(info[ids[i]]))
  }

  /** Where each id is in a list. */
  ghost predicate IndexOf(ids: seq<int>, index: map<int, int>) {
    && (forall i :: 0 <= i < |ids| ==> var id := ids[i]; id in index && index[id] == i)
    && (forall id :: id in index ==> 0 <= index[id] < |ids| && ids[index[id]] == id)
  }

  /** The indexes of the entries in the first n positions of a bucket. */
  function BucketIndexes(table: map<Slot, int>, index: map<int, int>, b: int, n: nat): seq<int> {
    if n == 0 then [] else
      var front := BucketIndexes(table, index, b, n - 1);
      var slot := (b, n - 1);
      if slot in table && table[slot] in index then front + [index[table[slot]]] else front
  }

  function Buckets(table: map<Slot, int>, index: map<int, int>, n: nat): seq<seq<int>> {
    seq(n, b requires 0 <= b < n => BucketIndexes(table, index, b, BUCKET_SIZE))
  }

  ghost predicate Lists(info: map<int, AddrInfo>, order: seq<int>) {
    && Distinct(order)
    && (forall id :: id in order <==> id in info)
  }

  lemma {:induction false} PickOk(info: map<int, AddrInfo>, order: seq<int>, tried: bool)
    requires Distinct(order)
    ensures Distinct(Pick(info, order, tried))
    ensures forall id :: id in Pick(info, order, tried) <==>
      id in order && id in info && (if tried then info[id].inTried else info[id].refCount != 0)
    decreases |order|
  {
    if order != [] {
      var front := order[..|order| - 1];
      PickOk(info, front, tried);
      assert forall id :: id in order <==> id in front || id == order[|order| - 1];
    }
  }

  function Save(env: Env, s: State, order: seq<int>, index: map<int, int>): Disk
    requires Lists(s.info, order)
  {
    PickOk(s.info, order, false);
    PickOk(s.info, order, true);
    Disk(FILE_FORMAT, INCOMPATIBILITY_BASE + FILE_FORMAT, s.key, FlipBit30(NEW_BUCKET_COUNT),
         Records(s.info, Pick(s.info, order, false)),
         Records(s.info, Pick(s.info, order, true)),
         Buckets(s.newTable, index, NEW_BUCKET_COUNT),
         env.asmapChecksum)
  }

  // ---------- loading ----------

  /** A record of the first list: a known address, not yet in any table. */
  function LoadNew(env: Env, s: State, r: Record): State {
    s.(idCount := s.idCount + 1,
       info := s.info[s.idCount := FromRecord(r, |s.random|)],
       ids := s.ids[r.service := s.idCount],
       random := s.random + [s.idCount],
       nNew := s.nNew + 1,
       counts := Adjust(s, env.network(r.service.ip), 1, 0))
  }

  /** A record of the second list: lost if its address is invalid or its tried slot is taken. */
  function LoadTried(env: Env, s: State, r: Record): State {
    var slot := TriedSlot(env, s.key, r.service);
    if !env.valid(r.service.ip) || slot in s.triedTable then s else
      s.(idCount := s.idCount + 1,
         info := s.info[s.idCount := FromRecord(r, |s.random|).(inTried := true)],
         ids := s.ids[r.service := s.idCount],
         random := s.random + [s.idCount],
         triedTable := s.triedTable[slot := s.idCount],
         nTried := s.nTried + 1,
         counts := Adjust(s, env.network(r.service.ip), 0, 1))
  }

  function LoadNews(env: Env, s: State, rs: seq<Record>): State {
    if rs == [] then s else LoadNew(env, LoadNews(env, s, rs[..|rs| - 1]), rs[|rs| - 1])
  }

  function LoadTrieds(env: Env, s: State, rs: seq<Record>): State {
    if rs == [] then s else LoadTried(env, LoadTrieds(env, s, rs[..|rs| - 1]), rs[|rs| - 1])
  }

  /** The (bucket, index) pairs of one bucket, without those out of range. */
  function Pairs(b: int, indexes: seq<int>, limit: int): seq<(int, int)> {
    if indexes == [] then [] else
      var front, x := Pairs(b, indexes[..|indexes| - 1], limit), indexes[|indexes| - 1];
      if 0 <= x < limit then front + [(b, x)] else front
  }

  function AllPairs(buckets: seq<seq<int>>, limit: int): seq<(int, int)> {
    if buckets == [] then [] else
      AllPairs(buckets[..|buckets| - 1], limit) + Pairs(|buckets| - 1, buckets[|buckets| - 1], limit)
  }

  lemma {:induction false} PairsInRange(b: int, xs: seq<int>, limit: int)
    ensures forall k :: 0 <= k < |Pairs(b, xs, limit)| ==> Pairs(b, xs, limit)[k].0 == b && 0 <= Pairs(b, xs, limit)[k].1 < limit
    decreases |xs|
  {
    if xs != [] {
      PairsInRange(b, xs[..|xs| - 1], limit);
    }
  }

  lemma {:induction false} AllPairsInRange(buckets: seq<seq<int>>, limit: int)
    ensures forall k :: 0 <= k < |AllPairs(buckets, limit)| ==>
      0 <= AllPairs(buckets, limit)[k].0 < |buckets| && 0 <= AllPairs(buckets, limit)[k].1 < limit
    decreases |buckets|
  {
    if buckets != [] {
      AllPairsInRange(buckets[..|buckets| - 1], limit);
      PairsInRange(|buckets| - 1, buckets[|buckets| - 1], limit);
    }
  }

  /** Puts an entry into the bucket it was in, or else into the bucket of its own source. */
  function PlacePair(env: Env, s: State, restore: bool, pair: (int, int)): State {
    var (b, id) := pair;
    if id !in s.info then s else
      var i := s.info[id];
      if !env.valid(i.service.ip) || i.refCount >= NEW_BUCKETS_PER_ADDRESS then s else
        var slot := (b, Position(env, s.key, true, b, i.service));
        if restore && slot !in s.newTable then AddRef(s, id, slot) else
          var other := NewSlot(env, s.key, i.service, i.source);
          if other !in s.newTable then AddRef(s, id, other) else s
  }

  function PlacePairs(env: Env, s: State, restore: bool, pairs: seq<(int, int)>): State {
    if pairs == [] then s else
      PlacePair(env, PlacePairs(env, s, restore, pairs[..|pairs| - 1]), restore, pairs[|pairs| - 1])
  }

  // ---------- what loading keeps ----------

  lemma {:induction false} LoadNewKeeps(env: Env, s: State, r: Record, idle: set<int>)
    requires Inv(env, s, {}, idle) && r.service !in s.ids && Routable(env, r.service.ip)
    ensures Inv(env, LoadNew(env, s, r), {}, idle + {s.idCount})
  {
    hide NewOk, TriedOk, CountsOk, MapsOk, RandomOk, AddressesOk, LiveOk;
    var a := Address(r.service, r.services, r.time);
    CreateKeeps(env, s, a, r.source, idle);
    var t := Create(env, s, a, r.source);
    SetInfoKeeps(env, t, s.idCount, FromRecord(r, |s.random|), idle + {s.idCount});
    assert LoadNew(env, s, r) == SetInfo(t, s.idCount, FromRecord(r, |s.random|));
  }

  ghost predicate Loadable(env: Env, s: State, r: Record) {
    && r.service !in s.ids && Routable(env, r.service.ip)
    && TriedSlot(env, s.key, r.service) !in s.triedTable
  }

  lemma {:induction false} LoadTriedMaps(env: Env, s: State, r: Record)
    requires MapsOk(s) && AddressesOk(env, s) && Loadable(env, s, r)
    ensures MapsOk(LoadTried(env, s, r)) && AddressesOk(env, LoadTried(env, s, r))
  {
  }

  lemma {:induction false} LoadTriedRandom(env: Env, s: State, r: Record)
    requires RandomOk(s) && (forall id :: id in s.info ==> id < s.idCount)
    ensures var t := LoadTried(env, s, r); RandomOk(t) && forall id :: id in t.info ==> id < t.idCount
  {
    hide TriedSlot;
    var t := LoadTried(env, s, r);
    assert s.idCount !in s.info;
    forall k | 0 <= k < |t.random| ensures var x := t.random[k]; x in t.info && t.info[x].randomPos == k {
      if k < |s.random| {
        var x := s.random[k];
        assert x in s.info && s.info[x].randomPos == k;
      }
    }
  }

  lemma {:induction false} LoadTriedNew(env: Env, s: State, r: Record)
    requires MapsOk(s) && NewOk(env, s) && Loadable(env, s, r)
    ensures NewOk(env, LoadTried(env, s, r))
  {
    assert Refs(s.newTable, s.idCount) == {};
  }

  lemma {:induction false} LoadTriedTable(env: Env, s: State, r: Record)
    requires MapsOk(s) && TriedOk(env, s) && Loadable(env, s, r)
    ensures TriedOk(env, LoadTried(env, s, r))
  {
    var t := LoadTried(env, s, r);
    forall x | x in t.info && t.info[x].inTried
      ensures var p := TriedSlot(env, t.key, t.info[x].service); p in t.triedTable && t.triedTable[p] == x
    {
      assert x != s.idCount ==> x in s.info && s.info[x].inTried;
    }
    forall p | p in t.triedTable
      ensures var x := t.triedTable[p]; x in t.info && t.info[x].inTried && p == TriedSlot(env, t.key, t.info[x].service)
    {
      if p in s.triedTable {
        var x := s.triedTable[p];
        assert x in s.info && s.info[x].inTried && p == TriedSlot(env, s.key, s.info[x].service);
      }
    }
  }

  lemma {:induction false} LoadTriedRest(env: Env, s: State, r: Record, idle: set<int>)
    requires MapsOk(s) && CountsOk(env, s, {}) && LiveOk(s, idle) && Loadable(env, s, r)
    ensures CountsOk(env, LoadTried(env, s, r), {}) && LiveOk(LoadTried(env, s, r), idle)
  {
    CountsFollow(env, s, {}, LoadTried(env, s, r), {}, s.idCount, r.service, 0, 1);
  }

  lemma {:induction false} IdsBelow(s: State)
    requires MapsOk(s)
    ensures forall id :: id in s.info ==> id < s.idCount
  {
  }

  lemma {:induction false} LoadTriedKeeps(env: Env, s: State, r: Record, idle: set<int>)
    requires Inv(env, s, {}, idle) && Loadable(env, s, r)
    ensures Inv(env, LoadTried(env, s, r), {}, idle)
  {
    hide NewOk, TriedOk, CountsOk, MapsOk, RandomOk, AddressesOk, LiveOk, Loadable, LoadTried;
    LoadTriedMaps(env, s, r);
    IdsBelow(s);
    LoadTriedRandom(env, s, r);
    LoadTriedNew(env, s, r);
    LoadTriedTable(env, s, r);
    LoadTriedRest(env, s, r, idle);
  }

  // ---------- the loaded entries mirror the saved ones ----------

  /** Entry j of t is entry ids[j] of s, as far as it is written; its place in the random order is j. */
  ghost predicate Mirror(s: State, ids: seq<int>, t: State) {
    && t.key == s.key && t.idCount == |ids| && |t.random| == |ids| && t.collisions == {}
    && (forall i :: 0 <= i < |ids| ==> var id := ids[i]; id in s.info)
    && (forall j :: j in t.info <==> 0 <= j < |ids|)
    && (forall j :: 0 <= j < |ids| ==> MirrorEntry(s, ids[j], t, j))
  }

  ghost predicate MirrorEntry(s: State, id: int, t: State, j: int) {
    && id in s.info && j in t.info
    && ToRecord(t.info[j]) == ToRecord(s.info[id])
    && t.info[j].inTried == s.info[id].inTried
    && t.info[j].lastTry == 0
  }

  lemma {:induction false} FreshAddress(s: State, ids: seq<int>, t: State, id: int)
    requires MapsOk(s) && MapsOk(t) && Mirror(s, ids, t) && id in s.info && id !in ids
    ensures s.info[id].service !in t.ids
  {
    forall a | a in t.ids ensures a != s.info[id].service {
      var j := t.ids[a];
      assert j in t.info && t.info[j].service == a;
      assert MirrorEntry(s, ids[j], t, j);
      var x := ids[j];
      assert s.ids[a] == x;
    }
  }

  lemma {:induction false} FreeTriedSlot(env: Env, s: State, ids: seq<int>, t: State, id: int)
    requires TriedOk(env, s) && TriedOk(env, t) && Mirror(s, ids, t) && id in s.info && s.info[id].inTried && id !in ids
    ensures TriedSlot(env, t.key, s.info[id].service) !in t.triedTable
  {
    forall slot | slot in t.triedTable ensures slot != TriedSlot(env, t.key, s.info[id].service) {
      var j := t.triedTable[slot];
      assert j in t.info && t.info[j].inTried && slot == TriedSlot(env, t.key, t.info[j].service);
      assert MirrorEntry(s, ids[j], t, j);
      var x := ids[j];
      assert x in s.info && s.info[x].inTried;
      assert s.triedTable[slot] == x;
    }
  }

  lemma {:induction false} MirrorGrows(s: State, ids: seq<int>, t: State, id: int, u: State)
    requires Mirror(s, ids, t) && id in s.info
    requires u.key == t.key && u.idCount == t.idCount + 1 && |u.random| == |t.random| + 1 && u.collisions == t.collisions
    requires |ids| in u.info && u.info == t.info[|ids| := u.info[|ids|]] && MirrorEntry(s, id, u, |ids|)
    ensures Mirror(s, ids + [id], u)
  {
    var more := ids + [id];
    forall j | 0 <= j < |more| ensures MirrorEntry(s, more[j], u, j) {
      if j < |ids| {
        assert MirrorEntry(s, ids[j], t, j);
      }
    }
  }

  lemma {:induction false} LoadNewMirror(env: Env, s: State, ids: seq<int>, t: State, id: int, idle: set<int>)
    requires Inv(env, s, {}, {}) && Inv(env, t, {}, idle) && Mirror(s, ids, t)
    requires id in s.info && !s.info[id].inTried && id !in ids
    ensures var u := LoadNew(env, t, ToRecord(s.info[id]));
      Inv(env, u, {}, idle + {|ids|}) && Mirror(s, ids + [id], u)
  {
    hide NewOk, TriedOk, CountsOk, MapsOk, RandomOk, LiveOk;
    FreshAddress(s, ids, t, id);
    LoadNewKeeps(env, t, ToRecord(s.info[id]), idle);
    MirrorGrows(s, ids, t, id, LoadNew(env, t, ToRecord(s.info[id])));
  }

  lemma {:induction false} LoadTriedMirror(env: Env, s: State, ids: seq<int>, t: State, id: int, idle: set<int>)
    requires Inv(env, s, {}, {}) && Inv(env, t, {}, idle) && Mirror(s, ids, t)
    requires id in s.info && s.info[id].inTried && id !in ids
    ensures var u := LoadTried(env, t, ToRecord(s.info[id]));
      Inv(env, u, {}, idle) && Mirror(s, ids + [id], u)
  {
    hide NewOk, TriedOk, CountsOk, MapsOk, RandomOk, LiveOk, TriedSlot;
    FreshAddress(s, ids, t, id);
    FreeTriedSlot(env, s, ids, t, id);
    LoadTriedKeeps(env, t, ToRecord(s.info[id]), idle);
    MirrorGrows(s, ids, t, id, LoadTried(env, t, ToRecord(s.info[id])));
  }

  lemma {:induction false} LoadNewsMirror(env: Env, s: State, ids: seq<int>, k: nat)
    requires Inv(env, s, {}, {}) && Distinct(ids) && k <= |ids|
    requires forall i :: 0 <= i < |ids| ==> var id := ids[i]; id in s.info && !s.info[id].inTried
    ensures var t := LoadNews(env, Empty(s.key), Records(s.info, ids)[..k]);
      Inv(env, t, {}, Below(k)) && Mirror(s, ids[..k], t) && t.newTable == map[]
    decreases k
  {
    hide Inv, LoadNew, LoadNews, Mirror, Empty, Below;
    var rs := Records(s.info, ids);
    if k == 0 {
      EmptyInv(env, s.key);
      EmptyMirror(env, s, ids, rs);
    } else {
      LoadNewsMirror(env, s, ids, k - 1);
      LoadNewsMore(env, Empty(s.key), rs, k - 1);
      LoadNewsStep(env, s, ids, LoadNews(env, Empty(s.key), rs[..k - 1]), k - 1);
    }
  }

  lemma {:induction false} LoadNewsStep(env: Env, s: State, ids: seq<int>, t: State, k: nat)
    requires Inv(env, s, {}, {}) && Distinct(ids) && k < |ids| && var id := ids[k]; id in s.info && !s.info[id].inTried
    requires Inv(env, t, {}, Below(k)) && Mirror(s, ids[..k], t)
    ensures var u := LoadNew(env, t, ToRecord(s.info[ids[k]]));
      Inv(env, u, {}, Below(k + 1)) && Mirror(s, ids[..k + 1], u) && u.newTable == t.newTable
  {
    hide Inv, LoadNew, Mirror;
    LoadNewMirror(env, s, ids[..k], t, ids[k], Below(k));
    assert ids[..k] + [ids[k]] == ids[..k + 1];
    LoadNewFrame(env, t, ToRecord(s.info[ids[k]]));
  }

  lemma {:induction false} EmptyMirror(env: Env, s: State, ids: seq<int>, rs: seq<Record>)
    ensures LoadNews(env, Empty(s.key), rs[..0]) == Empty(s.key)
    ensures Mirror(s, ids[..0], Empty(s.key)) && Empty(s.key).newTable == map[] && Below(0) == {}
  {
  }

  lemma {:induction false} LoadNewsMore(env: Env, s: State, rs: seq<Record>, k: nat)
    requires k < |rs|
    ensures LoadNews(env, s, rs[..k + 1]) == LoadNew(env, LoadNews(env, s, rs[..k]), rs[k])
  {
    hide LoadNew;
    assert rs[..k + 1][..k] == rs[..k];
  }

  lemma {:induction false} LoadNewFrame(env: Env, s: State, r: Record)
    ensures LoadNew(env, s, r).newTable == s.newTable
    ensures LoadTried(env, s, r).newTable == s.newTable
  {
  }

  lemma {:induction false} EmptyInv(env: Env, key: Key)
    ensures Inv(env, Empty(key), {}, {})
  {
    EmptyConsistent(env, key);
  }

  lemma {:induction false} LoadTriedsMirror(env: Env, s: State, base: State, front: seq<int>, ids: seq<int>, k: nat, idle: set<int>)
    requires Inv(env, s, {}, {}) && Inv(env, base, {}, idle) && Mirror(s, front, base)
    requires Distinct(front + ids) && k <= |ids|
    requires forall i :: 0 <= i < |ids| ==> var id := ids[i]; id in s.info && s.info[id].inTried
    ensures var t := LoadTrieds(env, base, Records(s.info, ids)[..k]);
      Inv(env, t, {}, idle) && Mirror(s, front + ids[..k], t) && t.newTable == base.newTable
    decreases k
  {
    hide Inv, LoadTried;
    var rs := Records(s.info, ids);
    if k == 0 {
      assert front + ids[..0] == front;
    } else {
      LoadTriedsMirror(env, s, base, front, ids, k - 1, idle);
      var t := LoadTrieds(env, base, rs[..k - 1]);
      assert rs[..k][..k - 1] == rs[..k - 1];
      var sofar := front + ids[..k - 1];
      forall i | 0 <= i < |sofar| ensures sofar[i] != ids[k - 1] {
        assert sofar[i] == (front + ids)[i] && ids[k - 1] == (front + ids)[|front| + k - 1];
      }
      LoadTriedMirror(env, s, sofar, t, ids[k - 1], idle);
      assert sofar + [ids[k - 1]] == front + ids[..k];
      LoadNewFrame(env, t, rs[k - 1]);
    }
  }

  // ---------- the entries go back into their slots ----------

  /** The saved new table up to a position, with ids replaced by indexes. */
  ghost function Renamed(table: map<Slot, int>, index: map<int, int>, b: int, i: int): map<Slot, int> {
    map slot | slot in table && Before(slot, b, i) && table[slot] in index :: index[table[slot]]
  }

  /** Everything up to position (b, i) has been put back. */
  ghost predicate Restored(env: Env, s: State, ids: seq<int>, index: map<int, int>, t: State, b: int, i: int) {
    && Mirror(s, ids, t)
    && t.newTable == Renamed(s.newTable, index, b, i)
    && (forall j :: 0 <= j < |ids| ==> t.info[j].refCount == |ScannedRefs(s.newTable, ids[j], b, i)|)
  }

  /** The lists and the index that a save uses. */
  ghost predicate Listing(s: State, news: seq<int>, trieds: seq<int>, index: map<int, int>) {
    && Distinct(news + trieds)
    && (forall id :: id in news <==> id in s.info && s.info[id].refCount != 0)
    && (forall id :: id in trieds <==> id in s.info && s.info[id].inTried)
    && IndexOf(news, index)
  }

  lemma {:induction false} HolderIndexed(env: Env, s: State, news: seq<int>, trieds: seq<int>, index: map<int, int>, slot: Slot)
    requires NewOk(env, s) && Listing(s, news, trieds, index) && slot in s.newTable
    ensures var id := s.newTable[slot];
      && id in s.info && !s.info[id].inTried && id in index && 0 <= index[id] < |news| && news[index[id]] == id
      && slot == (slot.0, Position(env, s.key, true, slot.0, s.info[id].service))
  {
    var id := s.newTable[slot];
    assert slot in Refs(s.newTable, id);
    assert id in news;
  }

  lemma {:induction false} RenamedStep(table: map<Slot, int>, index: map<int, int>, b: int, i: int)
    ensures var u, v := Renamed(table, index, b, i), Renamed(table, index, b, i + 1);
      && (b, i) !in u
      && (if (b, i) in table && table[(b, i)] in index then v == u[(b, i) := index[table[(b, i)]]] else v == u)
  {
    var u, v := Renamed(table, index, b, i), Renamed(table, index, b, i + 1);
    forall x ensures x in v <==> x in u || (x == (b, i) && (b, i) in table && table[(b, i)] in index) {}
  }

  lemma {:induction false} RefCountsStep(s: State, ids: seq<int>, t: State, b: int, i: int, j: int, u: State)
    requires Mirror(s, ids, t) && Distinct(ids) && 0 <= j < |ids|
    requires (b, i) in s.newTable && s.newTable[(b, i)] == ids[j]
    requires forall k :: 0 <= k < |ids| ==> t.info[k].refCount == |ScannedRefs(s.newTable, ids[k], b, i)|
    requires u == AddRef(t, j, (b, i))
    ensures Mirror(s, ids, u)
    ensures forall k :: 0 <= k < |ids| ==> u.info[k].refCount == |ScannedRefs(s.newTable, ids[k], b, i + 1)|
  {
    forall k | 0 <= k < |ids|
      ensures u.info[k].refCount == |ScannedRefs(s.newTable, ids[k], b, i + 1)| && MirrorEntry(s, ids[k], u, k)
    {
      ScannedRefsStep(s.newTable, ids[k], b, i);
      assert MirrorEntry(s, ids[k], t, k);
    }
  }

  lemma {:induction false} PlaceBack(env: Env, s: State, ids: seq<int>, t: State, b: int, i: int, j: int)
    requires NewOk(env, s) && AddressesOk(env, s) && Mirror(s, ids, t) && 0 <= j < |ids|
    requires (b, i) in s.newTable && s.newTable[(b, i)] == ids[j] && (b, i) !in t.newTable
    requires t.info[j].refCount == |ScannedRefs(s.newTable, ids[j], b, i)|
    ensures PlacePair(env, t, true, (b, j)) == AddRef(t, j, (b, i))
    ensures MayHold(env, t, j, (b, i))
  {
    assert MirrorEntry(s, ids[j], t, j);
    var id := ids[j];
    assert id in s.info && !s.info[id].inTried && i == Position(env, s.key, true, b, s.info[id].service);
    ScannedRefsBound(s.newTable, id, b, i);
  }

  lemma {:induction false} RestoreStep(env: Env, s: State, news: seq<int>, trieds: seq<int>, index: map<int, int>, t: State, b: int, i: int, idle: set<int>)
    requires Inv(env, s, {}, {}) && Listing(s, news, trieds, index)
    requires Inv(env, t, {}, idle) && Restored(env, s, news + trieds, index, t, b, i) && (b, i) in s.newTable
    ensures s.newTable[(b, i)] in index
    ensures var j := index[s.newTable[(b, i)]];
      var u := PlacePair(env, t, true, (b, j));
      0 <= j < |news| && Inv(env, u, {}, idle - {j}) && Restored(env, s, news + trieds, index, u, b, i + 1)
  {
    hide NewOk, TriedOk, CountsOk, MapsOk, RandomOk, LiveOk, Mirror, PlacePair, Renamed, ScannedRefs, Position;
    HolderIndexed(env, s, news, trieds, index, (b, i));
    var id := s.newTable[(b, i)];
    var j := index[id];
    var ids := news + trieds;
    assert ids[j] == id;
    RenamedStep(s.newTable, index, b, i);
    PlaceBack(env, s, ids, t, b, i, j);
    AddRefKeeps(env, t, j, (b, i), idle);
    RefCountsStep(s, ids, t, b, i, j, AddRef(t, j, (b, i)));
  }

  lemma {:induction false} RestoreSkip(env: Env, s: State, ids: seq<int>, index: map<int, int>, t: State, b: int, i: int)
    requires Restored(env, s, ids, index, t, b, i) && (b, i) !in s.newTable
    ensures Restored(env, s, ids, index, t, b, i + 1)
  {
    RenamedStep(s.newTable, index, b, i);
    forall j | 0 <= j < |ids| ensures t.info[j].refCount == |ScannedRefs(s.newTable, ids[j], b, i + 1)| {
      ScannedRefsStep(s.newTable, ids[j], b, i);
    }
  }

  lemma {:induction false} RestoreNextBucket(env: Env, s: State, ids: seq<int>, index: map<int, int>, t: State, b: int)
    requires Restored(env, s, ids, index, t, b, BUCKET_SIZE)
    requires forall slot :: slot in s.newTable ==> 0 <= slot.1 < BUCKET_SIZE
    ensures Restored(env, s, ids, index, t, b + 1, 0)
  {
    forall slot | slot in s.newTable ensures Before(slot, b + 1, 0) == Before(slot, b, BUCKET_SIZE) {}
    assert Renamed(s.newTable, index, b + 1, 0) == Renamed(s.newTable, index, b, BUCKET_SIZE);
    forall j | 0 <= j < |ids| ensures t.info[j].refCount == |ScannedRefs(s.newTable, ids[j], b + 1, 0)| {
      assert ScannedRefs(s.newTable, ids[j], b + 1, 0) == ScannedRefs(s.newTable, ids[j], b, BUCKET_SIZE);
    }
  }

  /** The pairs read for all positions before (b, i). */
  ghost function PairsUpTo(s: State, index: map<int, int>, limit: int, b: nat, i: nat): seq<(int, int)> {
    AllPairs(Buckets(s.newTable, index, b), limit) + Pairs(b, BucketIndexes(s.newTable, index, b, i), limit)
  }

  lemma {:induction false} RestoreUpTo(env: Env, s: State, news: seq<int>, trieds: seq<int>, index: map<int, int>, base: State,
                                       b: nat, i: nat, idle0: set<int>) returns (idle: set<int>)
    requires Inv(env, s, {}, {}) && Listing(s, news, trieds, index)
    requires Inv(env, base, {}, idle0) && Restored(env, s, news + trieds, index, base, 0, 0)
    requires i <= BUCKET_SIZE
    ensures var t := PlacePairs(env, base, true, PairsUpTo(s, index, |news|, b, i));
      Inv(env, t, {}, idle) && Restored(env, s, news + trieds, index, t, b, i)
    decreases b, i
  {
    hide Inv, Restored, Listing, PlacePair, PlacePairs, PairsUpTo;
    if i > 0 {
      idle := RestoreUpTo(env, s, news, trieds, index, base, b, i - 1, idle0);
      var before := PairsUpTo(s, index, |news|, b, i - 1);
      var t := PlacePairs(env, base, true, before);
      if (b, i - 1) in s.newTable {
        RestoreStep(env, s, news, trieds, index, t, b, i - 1, idle);
        var j := index[s.newTable[(b, i - 1)]];
        PairsMore(s, index, |news|, b, i - 1);
        PlaceMore(env, base, before, (b, j));
        idle := idle - {j};
      } else {
        RestoreSkip(env, s, news + trieds, index, t, b, i - 1);
        PairsSame(s, index, |news|, b, i - 1);
      }
    } else if b > 0 {
      idle := RestoreUpTo(env, s, news, trieds, index, base, b - 1, BUCKET_SIZE, idle0);
      PairsNextBucket(s, index, |news|, b - 1);
      SlotPositions(env, s);
      RestoreNextBucket(env, s, news + trieds, index, PlacePairs(env, base, true, PairsUpTo(s, index, |news|, b, i)), b - 1);
    } else {
      PlaceNone(env, s, index, |news|, base);
      idle := idle0;
    }
  }

  lemma {:induction false} PairsMore(s: State, index: map<int, int>, limit: int, b: nat, i: nat)
    requires (b, i) in s.newTable && s.newTable[(b, i)] in index && 0 <= index[s.newTable[(b, i)]] < limit
    ensures PairsUpTo(s, index, limit, b, i + 1) == PairsUpTo(s, index, limit, b, i) + [(b, index[s.newTable[(b, i)]])]
  {
    hide AllPairs, Buckets;
    var xs, j := BucketIndexes(s.newTable, index, b, i), index[s.newTable[(b, i)]];
    assert BucketIndexes(s.newTable, index, b, i + 1) == xs + [j];
    assert (xs + [j])[..|xs|] == xs;
    assert Pairs(b, xs + [j], limit) == Pairs(b, xs, limit) + [(b, j)];
  }

  lemma {:induction false} PairsSame(s: State, index: map<int, int>, limit: int, b: nat, i: nat)
    requires (b, i) !in s.newTable
    ensures PairsUpTo(s, index, limit, b, i + 1) == PairsUpTo(s, index, limit, b, i)
  {
    hide AllPairs, Buckets, Pairs;
  }

  lemma {:induction false} PlaceMore(env: Env, base: State, pairs: seq<(int, int)>, p: (int, int))
    ensures PlacePairs(env, base, true, pairs + [p]) == PlacePair(env, PlacePairs(env, base, true, pairs), true, p)
  {
    hide PlacePair;
    assert (pairs + [p])[..|pairs|] == pairs;
  }

  lemma {:induction false} PlaceNone(env: Env, s: State, index: map<int, int>, limit: int, base: State)
    ensures PlacePairs(env, base, true, PairsUpTo(s, index, limit, 0, 0)) == base
  {
    assert PairsUpTo(s, index, limit, 0, 0) == [];
  }

  lemma {:induction false} PairsNextBucket(s: State, index: map<int, int>, limit: int, b: nat)
    ensures PairsUpTo(s, index, limit, b + 1, 0) == PairsUpTo(s, index, limit, b, BUCKET_SIZE)
  {
    var all, front := Buckets(s.newTable, index, b + 1), Buckets(s.newTable, index, b);
    assert all[..b] == front && all[b] == BucketIndexes(s.newTable, index, b, BUCKET_SIZE);
    assert AllPairs(all, limit) == AllPairs(front, limit) + Pairs(b, all[b], limit);
  }

  lemma {:induction false} SlotPositions(env: Env, s: State)
    requires Inv(env, s, {}, {})
    ensures forall slot :: slot in s.newTable ==> 0 <= slot.1 < BUCKET_SIZE
  {
  }

  // ---------- the whole load ----------

  lemma {:induction false} DropRandom(env: Env, s: State, id: int)
    requires RandomOk(s) && id in s.info && s.info[id].randomPos == |s.random| - 1
    ensures RandomOk(DropLast(env, s, id))
  {
    var t := DropLast(env, s, id);
    forall k | 0 <= k < |t.random| ensures var x := t.random[k]; x in t.info && t.info[x].randomPos == k {
      var x := s.random[k];
      assert x in s.info && s.info[x].randomPos == k;
    }
  }

  lemma {:induction false} DeleteRandom(env: Env, s: State, id: int)
    requires RandomOk(s) && id in s.info && !s.info[id].inTried && s.info[id].refCount == 0
    ensures RandomOk(Delete(env, s, id))
  {
    hide RandomOk, SwapRandom, DropLast;
    SwapToLast(s, id);
    SwapRandomKeeps(s, s.info[id].randomPos, |s.random| - 1);
    DropRandom(env, SwapRandom(s, s.info[id].randomPos, |s.random| - 1), id);
  }

  /** Drops the entries that ended up in no table, visiting the ids in the given order. */
  function Prune(env: Env, s: State, order: seq<int>): State
    requires RandomOk(s)
    decreases |order|
  {
    if order == [] then s else
      var id := order[0];
      if id in s.info && !s.info[id].inTried && s.info[id].refCount == 0 then
        DeleteRandom(env, s, id);
        Prune(env, Delete(env, s, id), order[1..])
      else Prune(env, s, order[1..])
  }

  lemma {:induction false} PruneNothing(env: Env, s: State, order: seq<int>)
    requires RandomOk(s) && LiveOk(s, {})
    ensures Prune(env, s, order) == s
    decreases |order|
  {
    if order != [] {
      PruneNothing(env, s, order[1..]);
    }
  }

  lemma {:induction false} LoadNewRandom(env: Env, s: State, r: Record)
    requires RandomOk(s) && (forall id :: id in s.info ==> id < s.idCount)
    ensures var t := LoadNew(env, s, r); RandomOk(t) && forall id :: id in t.info ==> id < t.idCount
  {
    var t := LoadNew(env, s, r);
    assert s.idCount !in s.info;
    forall k | 0 <= k < |t.random| ensures var x := t.random[k]; x in t.info && t.info[x].randomPos == k {
      if k < |s.random| {
        var x := s.random[k];
        assert x in s.info && s.info[x].randomPos == k;
      }
    }
  }

  lemma {:induction false} LoadsRandom(env: Env, s: State, rs: seq<Record>)
    requires RandomOk(s) && (forall id :: id in s.info ==> id < s.idCount)
    ensures var t := LoadNews(env, s, rs); RandomOk(t) && forall id :: id in t.info ==> id < t.idCount
    ensures var t := LoadTrieds(env, s, rs); RandomOk(t) && forall id :: id in t.info ==> id < t.idCount
    decreases |rs|
  {
    hide RandomOk, LoadNew, LoadTried;
    if rs != [] {
      LoadsRandom(env, s, rs[..|rs| - 1]);
      LoadNewRandom(env, LoadNews(env, s, rs[..|rs| - 1]), rs[|rs| - 1]);
      LoadTriedRandom(env, LoadTrieds(env, s, rs[..|rs| - 1]), rs[|rs| - 1]);
    }
  }

  lemma {:induction false} AddRefRandom(s: State, id: int, slot: Slot)
    requires RandomOk(s) && id in s.info
    ensures RandomOk(AddRef(s, id, slot))
  {
  }

  lemma {:induction false} PlacePairsRandom(env: Env, s: State, restore: bool, pairs: seq<(int, int)>)
    requires RandomOk(s)
    ensures RandomOk(PlacePairs(env, s, restore, pairs))
    decreases |pairs|
  {
    hide RandomOk, AddRef, Position, NewBucket;
    if pairs != [] {
      var front := pairs[..|pairs| - 1];
      PlacePairsRandom(env, s, restore, front);
      var t := PlacePairs(env, s, restore, front);
      var (b, id) := pairs[|pairs| - 1];
      if id in t.info {
        var i := t.info[id];
        AddRefRandom(t, id, (b, Position(env, t.key, true, b, i.service)));
        AddRefRandom(t, id, NewSlot(env, t.key, i.service, i.source));
      }
    }
  }

  function RawBucketCount(d: Disk): nat {
    if d.format >= 1 then FlipBit30(d.bucketCount) else d.bucketCount
  }

  predicate Restorable(env: Env, d: Disk) {
    RawBucketCount(d) == NEW_BUCKET_COUNT && (if d.format >= 2 then d.asmap else 0) == env.asmapChecksum
  }

  /** The state before the final check. */
  function Rebuild(env: Env, d: Disk, pruneOrder: seq<int>): State {
    LoadsRandom(env, Empty(d.key), d.news);
    var a := LoadNews(env, Empty(d.key), d.news);
    LoadsRandom(env, a, d.trieds);
    var t := LoadTrieds(env, a, d.trieds);
    PlacePairsRandom(env, t, Restorable(env, d), AllPairs(d.buckets, |d.news|));
    Prune(env, PlacePairs(env, t, Restorable(env, d), AllPairs(d.buckets, |d.news|)), pruneOrder)
  }

  ghost function Load(env: Env, d: Disk, pruneOrder: seq<int>): LoadResult {
    if d.compat < INCOMPATIBILITY_BASE then Corrupt
    else if d.compat - INCOMPATIBILITY_BASE > FILE_FORMAT then Incompatible
    else if |d.news| > NEW_BUCKET_COUNT * BUCKET_SIZE || |d.trieds| > TRIED_BUCKET_COUNT * BUCKET_SIZE then Corrupt
    else if |d.buckets| != RawBucketCount(d) then Corrupt
    else if Checked(env, Rebuild(env, d, pruneOrder)) then Loaded(Rebuild(env, d, pruneOrder))
    else Corrupt
  }

  // ---------- the round trip ----------

  /** What is stored where, by address: the ids do not matter. */
  ghost predicate SameContents(s: State, t: State) {
    && t.key == s.key && t.nNew == s.nNew && t.nTried == s.nTried
    && (forall a :: a in s.ids <==> a in t.ids)
    && (forall a :: a in s.ids ==>
          var x, y := s.ids[a], t.ids[a];
          && x in s.info && y in t.info
          && ToRecord(t.info[y]) == ToRecord(s.info[x])
          && t.info[y].refCount == s.info[x].refCount && t.info[y].inTried == s.info[x].inTried)
    && SameTable(s.info, s.newTable, t.info, t.newTable)
    && SameTable(s.info, s.triedTable, t.info, t.triedTable)
  }

  /** Every slot holds the same address. */
  ghost predicate SameTable(info: map<int, AddrInfo>, table: map<Slot, int>, info': map<int, AddrInfo>, table': map<Slot, int>) {
    && (forall slot :: slot in table <==> slot in table')
    && (forall slot :: slot in table ==>
          var x, y := table[slot], table'[slot];
          x in info && y in info' && info[x].service == info'[y].service)
  }

  lemma {:induction false} PicksListing(env: Env, s: State, order: seq<int>, index: map<int, int>)
    requires Inv(env, s, {}, {}) && Lists(s.info, order) && IndexOf(Pick(s.info, order, false), index)
    ensures Listing(s, Pick(s.info, order, false), Pick(s.info, order, true), index)
    ensures forall id :: id in Pick(s.info, order, false) ==> id in s.info && !s.info[id].inTried
  {
    var news, trieds := Pick(s.info, order, false), Pick(s.info, order, true);
    PickOk(s.info, order, false);
    PickOk(s.info, order, true);
    forall id | id in s.info && s.info[id].inTried ensures s.info[id].refCount == 0 {
      forall slot ensures slot in Refs(s.newTable, id) <==> slot in {} {
        if slot in s.newTable {
          var x := s.newTable[slot];
          assert !s.info[x].inTried;
        }
      }
      assert Refs(s.newTable, id) == {};
    }
    forall i, j | 0 <= i < j < |news + trieds| ensures (news + trieds)[i] != (news + trieds)[j] {
      assert (news + trieds)[i] in news || (news + trieds)[i] in trieds;
    }
  }

  lemma {:induction false} StartRestored(env: Env, s: State, ids: seq<int>, index: map<int, int>, t: State)
    requires NewOk(env, s) && NewOk(env, t) && Mirror(s, ids, t) && t.newTable == map[]
    ensures Restored(env, s, ids, index, t, 0, 0)
  {
    forall slot | slot in s.newTable ensures !Before(slot, 0, 0) {
      assert 0 <= slot.1;
    }
    assert Renamed(s.newTable, index, 0, 0) == map[];
    forall j | 0 <= j < |ids| ensures t.info[j].refCount == |ScannedRefs(s.newTable, ids[j], 0, 0)| {
      assert Refs(t.newTable, j) == {};
      assert ScannedRefs(s.newTable, ids[j], 0, 0) == {};
    }
  }

  // ---------- the tables bound the lists ----------

  lemma {:induction false} RowBound(slots: set<Slot>, b: int, k: nat)
    requires forall slot :: slot in slots ==> slot.0 == b && 0 <= slot.1 < k
    ensures |slots| <= k
    decreases k
  {
    if k > 0 {
      var rest := slots - {(b, k - 1)};
      forall slot | slot in rest ensures slot.0 == b && 0 <= slot.1 < k - 1 {
        assert slot != (b, k - 1);
      }
      RowBound(rest, b, k - 1);
    } else {
      forall slot ensures slot in slots <==> slot in {} {}
      assert slots == {};
    }
  }

  lemma {:induction false} GridBound(slots: set<Slot>, n: nat)
    requires forall slot :: slot in slots ==> 0 <= slot.0 < n && 0 <= slot.1 < BUCKET_SIZE
    ensures |slots| <= n * BUCKET_SIZE
    decreases n
  {
    if n > 0 {
      var row := set slot | slot in slots && slot.0 == n - 1;
      RowBound(row, n - 1, BUCKET_SIZE);
      GridBound(slots - row, n - 1);
      assert |slots| == |row| + |slots - row| by {
        assert row <= slots;
      }
    } else {
      forall slot ensures slot in slots <==> slot in {} {}
      assert slots == {};
    }
  }

  lemma {:induction false} HeldBound(ids: seq<int>, table: map<Slot, int>)
    requires Distinct(ids)
    requires forall i :: 0 <= i < |ids| ==> Refs(table, ids[i]) != {}
    ensures |ids| <= |table|
    decreases |ids|
  {
    if ids != [] {
      var front, last := ids[..|ids| - 1], ids[|ids| - 1];
      var mine := Refs(table, last);
      var rest := table - mine;
      forall i | 0 <= i < |front| ensures Refs(rest, front[i]) != {} {
        assert front[i] == ids[i] != last;
        assert Refs(rest, front[i]) == Refs(table, front[i]);
      }
      HeldBound(front, rest);
      assert rest.Keys == table.Keys - mine && mine <= table.Keys;
      assert |table.Keys| == |mine| + |table.Keys - mine|;
    }
  }

  lemma {:induction false} NewsFit(env: Env, s: State, ids: seq<int>)
    requires NewOk(env, s) && Distinct(ids)
    requires forall id :: id in ids ==> id in s.info && s.info[id].refCount != 0
    ensures |ids| <= NEW_BUCKET_COUNT * BUCKET_SIZE
  {
    forall i | 0 <= i < |ids| ensures Refs(s.newTable, ids[i]) != {} {
      var id := ids[i];
      assert s.info[id].refCount == |Refs(s.newTable, id)|;
    }
    HeldBound(ids, s.newTable);
    GridBound(s.newTable.Keys, NEW_BUCKET_COUNT);
    assert |s.newTable| == |s.newTable.Keys|;
  }

  lemma {:induction false} TriedsFit(env: Env, s: State, ids: seq<int>)
    requires TriedOk(env, s) && Distinct(ids)
    requires forall id :: id in ids ==> id in s.info && s.info[id].inTried
    ensures |ids| <= TRIED_BUCKET_COUNT * BUCKET_SIZE
  {
    forall i | 0 <= i < |ids| ensures Refs(s.triedTable, ids[i]) != {} {
      var id := ids[i];
      assert TriedSlot(env, s.key, s.info[id].service) in Refs(s.triedTable, id);
    }
    HeldBound(ids, s.triedTable);
    forall slot | slot in s.triedTable ensures 0 <= slot.0 < TRIED_BUCKET_COUNT && 0 <= slot.1 < BUCKET_SIZE {
      var id := s.triedTable[slot];
      assert slot == TriedSlot(env, s.key, s.info[id].service);
    }
    GridBound(s.triedTable.Keys, TRIED_BUCKET_COUNT);
    assert |s.triedTable| == |s.triedTable.Keys|;
  }

  // ---------- the theorem ----------

  /** Everything is back: the loaded state mirrors the saved one, reference counts included. */
  ghost predicate FullyRestored(env: Env, s: State, news: seq<int>, trieds: seq<int>, index: map<int, int>, t: State) {
    && Inv(env, t, {}, {})
    && Restored(env, s, news + trieds, index, t, NEW_BUCKET_COUNT, 0)
  }

  lemma {:induction false} AllScanned(env: Env, s: State, id: int)
    requires NewOk(env, s)
    ensures ScannedRefs(s.newTable, id, NEW_BUCKET_COUNT, 0) == Refs(s.newTable, id)
  {
    forall slot | slot in s.newTable ensures Before(slot, NEW_BUCKET_COUNT, 0) {}
  }

  lemma {:induction false} NothingIdle(env: Env, s: State, ids: seq<int>, index: map<int, int>, t: State, idle: set<int>)
    requires NewOk(env, s) && LiveOk(s, {}) && LiveOk(t, idle) && Restored(env, s, ids, index, t, NEW_BUCKET_COUNT, 0)
    ensures idle == {}
  {
    forall j | j in t.info && !t.info[j].inTried ensures t.info[j].refCount > 0 {
      assert MirrorEntry(s, ids[j], t, j);
      AllScanned(env, s, ids[j]);
      var id := ids[j];
      assert s.info[id].refCount == |Refs(s.newTable, id)|;
    }
    forall j ensures j in idle <==> j in {} {}
  }

  lemma {:induction false} RebuildRestores(env: Env, s: State, order: seq<int>, index: map<int, int>, pruneOrder: seq<int>)
    requires Inv(env, s, {}, {}) && Lists(s.info, order) && IndexOf(Pick(s.info, order, false), index)
    ensures FullyRestored(env, s, Pick(s.info, order, false), Pick(s.info, order, true), index,
                          Rebuild(env, Save(env, s, order, index), pruneOrder))
  {
    hide MapsOk, RandomOk, NewOk, TriedOk, CountsOk, LiveOk, AddressesOk, Mirror, Restored, LoadNews, LoadTrieds, PlacePairs,
         AllPairs, Prune, Pick, Renamed;
    var d := Save(env, s, order, index);
    var news, trieds := Pick(s.info, order, false), Pick(s.info, order, true);
    PickOk(s.info, order, false);
    PickOk(s.info, order, true);
    PicksListing(env, s, order, index);
    LoadNewsMirror(env, s, news, |news|);
    assert Records(s.info, news)[..|news|] == d.news && news[..|news|] == news;
    var a := LoadNews(env, Empty(s.key), d.news);
    LoadTriedsMirror(env, s, a, news, trieds, |trieds|, Below(|news|));
    assert Records(s.info, trieds)[..|trieds|] == d.trieds && trieds[..|trieds|] == trieds;
    var b := LoadTrieds(env, a, d.trieds);
    StartRestored(env, s, news + trieds, index, b);
    var idle := RestoreUpTo(env, s, news, trieds, index, b, NEW_BUCKET_COUNT, 0, Below(|news|));
    assert PairsUpTo(s, index, |news|, NEW_BUCKET_COUNT, 0) == AllPairs(d.buckets, |news|);
    assert Restorable(env, d);
    var c := PlacePairs(env, b, true, AllPairs(d.buckets, |news|));
    NothingIdle(env, s, news + trieds, index, c, idle);
    PruneNothing(env, c, pruneOrder);
  }

  lemma {:induction false} SameAddresses(s: State, ids: seq<int>, t: State)
    requires MapsOk(s) && MapsOk(t) && Mirror(s, ids, t) && Distinct(ids) && (forall id :: id in s.info ==> id in ids)
    ensures forall a :: a in s.ids <==> a in t.ids
    ensures forall a :: a in s.ids ==> var j := t.ids[a]; 0 <= j < |ids| && ids[j] == s.ids[a]
  {
    forall a | a in s.ids ensures a in t.ids && var j := t.ids[a]; 0 <= j < |ids| && ids[j] == s.ids[a] {
      var id := s.ids[a];
      assert id in s.info && s.info[id].service == a;
      var j :| 0 <= j < |ids| && ids[j] == id;
      assert MirrorEntry(s, ids[j], t, j);
      assert t.info[j].service == a;
    }
    forall a | a in t.ids ensures a in s.ids {
      var j := t.ids[a];
      assert j in t.info && t.info[j].service == a;
      assert MirrorEntry(s, ids[j], t, j);
    }
  }

  lemma {:induction false} SameEntries(env: Env, s: State, ids: seq<int>, index: map<int, int>, t: State)
    requires MapsOk(s) && MapsOk(t) && NewOk(env, s) && Restored(env, s, ids, index, t, NEW_BUCKET_COUNT, 0) && Distinct(ids)
    requires forall id :: id in s.info ==> id in ids
    ensures forall a :: a in s.ids <==> a in t.ids
    ensures forall a :: a in s.ids ==>
      var x, y := s.ids[a], t.ids[a];
      && x in s.info && y in t.info
      && ToRecord(t.info[y]) == ToRecord(s.info[x])
      && t.info[y].refCount == s.info[x].refCount && t.info[y].inTried == s.info[x].inTried
  {
    SameAddresses(s, ids, t);
    forall a | a in s.ids
      ensures var x, y := s.ids[a], t.ids[a];
        && x in s.info && y in t.info
        && ToRecord(t.info[y]) == ToRecord(s.info[x])
        && t.info[y].refCount == s.info[x].refCount && t.info[y].inTried == s.info[x].inTried
    {
      var x, y := s.ids[a], t.ids[a];
      assert MirrorEntry(s, ids[y], t, y);
      AllScanned(env, s, x);
    }
  }

  lemma {:induction false} SameNewTable(env: Env, s: State, news: seq<int>, trieds: seq<int>, index: map<int, int>, t: State)
    requires NewOk(env, s) && Listing(s, news, trieds, index) && Restored(env, s, news + trieds, index, t, NEW_BUCKET_COUNT, 0)
    ensures SameTable(s.info, s.newTable, t.info, t.newTable)
  {
    var ids := news + trieds;
    forall slot | slot in s.newTable
      ensures slot in t.newTable && var x, y := s.newTable[slot], t.newTable[slot];
        x in s.info && y in t.info && s.info[x].service == t.info[y].service
    {
      HolderIndexed(env, s, news, trieds, index, slot);
      var x := s.newTable[slot];
      var y := index[x];
      assert Before(slot, NEW_BUCKET_COUNT, 0);
      assert ids[y] == x && MirrorEntry(s, ids[y], t, y);
    }
  }

  lemma {:induction false} SameTriedTable(env: Env, s: State, ids: seq<int>, t: State)
    requires TriedOk(env, s) && TriedOk(env, t) && Mirror(s, ids, t) && (forall id :: id in s.info ==> id in ids)
    ensures SameTable(s.info, s.triedTable, t.info, t.triedTable)
  {
    forall slot | slot in s.triedTable
      ensures slot in t.triedTable && var x, y := s.triedTable[slot], t.triedTable[slot];
        x in s.info && y in t.info && s.info[x].service == t.info[y].service
    {
      var x := s.triedTable[slot];
      assert x in s.info && s.info[x].inTried && slot == TriedSlot(env, s.key, s.info[x].service);
      var j :| 0 <= j < |ids| && ids[j] == x;
      assert MirrorEntry(s, ids[j], t, j);
    }
    forall slot | slot in t.triedTable ensures slot in s.triedTable {
      var j := t.triedTable[slot];
      assert j in t.info && t.info[j].inTried && slot == TriedSlot(env, t.key, t.info[j].service);
      assert MirrorEntry(s, ids[j], t, j);
      var x := ids[j];
      assert x in s.info && s.info[x].inTried;
    }
  }

  lemma {:induction false} SameSideCount(env: Env, s: State, ids: seq<int>, t: State, tried: bool)
    requires Mirror(s, ids, t) && Distinct(ids) && (forall id :: id in s.info ==> id in ids)
    ensures |Members(env, s.info, {}, tried, None)| == |Members(env, t.info, {}, tried, None)|
  {
    MirrorCount(env, s, ids, t, tried, |ids|);
    var a, b := MirrorPart(s, ids, tried, |ids|), OwnPart(t, tried, |ids|);
    forall id ensures id in Members(env, s.info, {}, tried, None) <==> id in a {
      if id in s.info {
        assert id in ids;
      }
    }
    forall j ensures j in Members(env, t.info, {}, tried, None) <==> j in b {}
    assert Members(env, s.info, {}, tried, None) == a && Members(env, t.info, {}, tried, None) == b;
  }

  ghost function MirrorPart(s: State, ids: seq<int>, tried: bool, k: nat): set<int>
    requires k <= |ids|
  {
    set id | id in ids[..k] && id in s.info && s.info[id].inTried == tried
  }

  ghost function OwnPart(t: State, tried: bool, k: nat): set<int> {
    set j | j in t.info && 0 <= j < k && t.info[j].inTried == tried
  }

  lemma {:induction false} MirrorPartStep(s: State, ids: seq<int>, tried: bool, k: nat)
    requires Distinct(ids) && 0 < k <= |ids| && ids[k - 1] in s.info
    ensures |MirrorPart(s, ids, tried, k)| == |MirrorPart(s, ids, tried, k - 1)| + Bit(s.info[ids[k - 1]].inTried == tried)
  {
    var a, id := MirrorPart(s, ids, tried, k - 1), ids[k - 1];
    assert ids[..k] == ids[..k - 1] + [id];
    assert id !in a;
    assert MirrorPart(s, ids, tried, k) == if s.info[id].inTried == tried then a + {id} else a;
  }

  lemma {:induction false} OwnPartStep(t: State, tried: bool, k: nat)
    requires 0 < k && k - 1 in t.info
    ensures |OwnPart(t, tried, k)| == |OwnPart(t, tried, k - 1)| + Bit(t.info[k - 1].inTried == tried)
  {
    var b := OwnPart(t, tried, k - 1);
    assert k - 1 !in b;
    assert OwnPart(t, tried, k) == if t.info[k - 1].inTried == tried then b + {k - 1} else b;
  }

  lemma {:induction false} MirrorCount(env: Env, s: State, ids: seq<int>, t: State, tried: bool, k: nat)
    requires Mirror(s, ids, t) && Distinct(ids) && k <= |ids|
    ensures |MirrorPart(s, ids, tried, k)| == |OwnPart(t, tried, k)|
    decreases k
  {
    if k > 0 {
      MirrorCount(env, s, ids, t, tried, k - 1);
      assert MirrorEntry(s, ids[k - 1], t, k - 1);
      MirrorPartStep(s, ids, tried, k);
      OwnPartStep(t, tried, k);
    } else {
      assert MirrorPart(s, ids, tried, 0) == {} && OwnPart(t, tried, 0) == {};
    }
  }

  lemma {:induction false} MirrorTimes(s: State, ids: seq<int>, t: State)
    requires TimesOk(s) && Mirror(s, ids, t)
    ensures TimesOk(t)
  {
    forall j | j in t.info
      ensures t.info[j].lastTry >= 0 && t.info[j].lastSuccess >= 0 && (t.info[j].inTried ==> t.info[j].lastSuccess != 0)
    {
      assert MirrorEntry(s, ids[j], t, j);
    }
  }

  lemma {:induction false} AllListed(s: State, news: seq<int>, trieds: seq<int>, index: map<int, int>)
    requires Listing(s, news, trieds, index) && LiveOk(s, {})
    ensures forall id :: id in s.info ==> id in news + trieds
  {
  }

  /** A saved consistent address manager loads, with the same address in every slot of both tables, the same
      reference counts and persisted fields, and no entry lost. */
  lemma {:induction false} RoundTrip(env: Env, s: State, order: seq<int>, index: map<int, int>, pruneOrder: seq<int>)
    requires Consistent(env, s) && TimesOk(s) && s.key != 0
    requires Lists(s.info, order) && IndexOf(Pick(s.info, order, false), index)
    ensures var r := Load(env, Save(env, s, order, index), pruneOrder);
      r.Loaded? && Consistent(env, r.s) && TimesOk(r.s) && SameContents(s, r.s)
  {
    hide MapsOk, RandomOk, NewOk, TriedOk, LiveOk, AddressesOk, Mirror, Rebuild, Pick, Renamed, TimesOk, Members,
         SameTable, Checked, ToRecord;
    var d := Save(env, s, order, index);
    var news, trieds := Pick(s.info, order, false), Pick(s.info, order, true);
    var t := Rebuild(env, d, pruneOrder);
    RebuildRestores(env, s, order, index, pruneOrder);
    PickOk(s.info, order, false);
    PickOk(s.info, order, true);
    PicksListing(env, s, order, index);
    NewsFit(env, s, news);
    TriedsFit(env, s, trieds);
    var ids := news + trieds;
    AllListed(s, news, trieds, index);
    SameEntries(env, s, ids, index, t);
    SameNewTable(env, s, news, trieds, index, t);
    SameTriedTable(env, s, ids, t);
    SameSideCount(env, s, ids, t, false);
    SameSideCount(env, s, ids, t, true);
    MirrorTimes(s, ids, t);
    MirrorPlain(s, ids, t);
    ConsistentChecked(env, t);
  }

  lemma {:induction false} MirrorPlain(s: State, ids: seq<int>, t: State)
    requires Mirror(s, ids, t)
    ensures t.key == s.key && t.collisions == {}
  {
  }
}

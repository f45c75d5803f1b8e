/** The loops that write and read the address manager's file. */
module AddrManFile {
  import opened AddrManState
  import opened AddrManInvariant
  import opened AddrManOps
  import opened AddrManRun
  import opened AddrManClass
  import opened AddrManCheck
  import opened AddrManDisk
  import opened AddrManRebucket

  // ---------- writing ----------

  /** The prefixes of a list pick prefixes. */
  lemma {:induction false} PickStep(info: map<int, AddrInfo>, order: seq<int>, tried: bool, n: nat)
    requires n < |order|
    ensures var id := order[n];
      Pick(info, order[..n + 1], tried) ==
      if id in info && (if tried then info[id].inTried else info[id].refCount != 0)
      then Pick(info, order[..n], tried) + [id] else Pick(info, order[..n], tried)
  {
    assert order[..n + 1][..n] == order[..n];
  }

  lemma {:induction false} RecordsStep(info: map<int, AddrInfo>, ids: seq<int>, id: int, index: map<int, int>)
    requires (forall i :: 0 <= i < |ids| ==> ids[i] in info) && id in info && id !in ids && IndexOf(ids, index)
    ensures Records(info, ids + [id]) == Records(info, ids) + [ToRecord(info[id])]
    ensures IndexOf(ids + [id], index[id := |ids|])
  {
    var more, index' := ids + [id], index[id := |ids|];
    forall i | 0 <= i < |more| ensures var x := more[i]; x in index' && index'[x] == i {
      if i < |ids| {
        var x := ids[i];
        assert x in index && index[x] == i;
      }
    }
  }

  lemma {:induction false} NextId(info: map<int, AddrInfo>, order: seq<int>, tried: bool, n: nat)
    requires Lists(info, order) && n <= |order|
    ensures n < |order| ==> order[n] in info && order[n] !in Pick(info, order[..n], tried)
    ensures forall i :: 0 <= i < |Pick(info, order[..n], tried)| ==> Pick(info, order[..n], tried)[i] in info
  {
    hide Pick;
    var picked := Pick(info, order[..n], tried);
    PickOk(info, order[..n], tried);
    forall i | 0 <= i < |picked| ensures picked[i] in info {
      assert picked[i] in picked;
    }
    if n < |order| {
      var id := order[n];
      assert id in order && id in info;
      assert id !in order[..n] && id !in picked;
    }
  }

  /** Writes the entries of one side in the order of the list and numbers them. */
  method WriteEntries(a: AddrMan, order: seq<int>, tried: bool) returns (rs: seq<Record>, index: map<int, int>)
    requires Lists(a.mapInfo, order)
    ensures forall i :: 0 <= i < |Pick(a.mapInfo, order, tried)| ==> Pick(a.mapInfo, order, tried)[i] in a.mapInfo
    ensures rs == Records(a.mapInfo, Pick(a.mapInfo, order, tried))
    ensures IndexOf(Pick(a.mapInfo, order, tried), index)
  {
    hide IndexOf, Records, Lists, Pick;
    rs, index := WriteNothing(a);
    ghost var picked := [];
    PickNone(a.mapInfo, order, tried);
    var n := 0;
    while n < |order|
      invariant 0 <= n <= |order|
      invariant picked == Pick(a.mapInfo, order[..n], tried)
      invariant forall i :: 0 <= i < |picked| ==> picked[i] in a.mapInfo
      invariant rs == Records(a.mapInfo, picked) && |rs| == |picked|
      invariant IndexOf(picked, index)
    {
      var id := order[n];
      NextId(a.mapInfo, order, tried, n);
      PickStep(a.mapInfo, order, tried, n);
      var i := a.mapInfo[id];
      if (tried && i.inTried) || (!tried && i.refCount != 0) {
        RecordsStep(a.mapInfo, picked, id, index);
        index := index[id := |rs|];
        rs := rs + [ToRecord(i)];
        picked := picked + [id];
      }
      n := n + 1;
    }
    assert order[..n] == order;
  }

  lemma {:induction false} PickNone(info: map<int, AddrInfo>, order: seq<int>, tried: bool)
    ensures Pick(info, order[..0], tried) == []
  {
  }

  method WriteNothing(a: AddrMan) returns (rs: seq<Record>, index: map<int, int>)
    ensures rs == Records(a.mapInfo, []) == [] && IndexOf([], index)
  {
    rs, index := [], map[];
  }

  /** Writes the indexes of the entries of one bucket. */
  method WriteBucket(a: AddrMan, index: map<int, int>, b: nat) returns (indexes: seq<int>)
    requires a.Shape() && b < NEW_BUCKET_COUNT && NewOk(a.env, a.View())
    requires forall slot :: slot in a.View().newTable ==> a.View().newTable[slot] in index
    ensures indexes == BucketIndexes(a.View().newTable, index, b, BUCKET_SIZE)
  {
    hide NewOk, Table;
    indexes := [];
    var i := 0;
    while i < BUCKET_SIZE
      invariant 0 <= i <= BUCKET_SIZE
      invariant indexes == BucketIndexes(a.View().newTable, index, b, i)
    {
      var id := a.NewAt((b, i));
      if id != -1 {
        indexes := indexes + [index[id]];
      }
      i := i + 1;
    }
  }

  lemma {:induction false} HoldersIndexed(env: Env, s: State, order: seq<int>, index: map<int, int>)
    requires Inv(env, s, {}, {}) && Lists(s.info, order) && IndexOf(Pick(s.info, order, false), index)
    ensures forall slot :: slot in s.newTable ==> s.newTable[slot] in index
  {
    hide MapsOk, RandomOk, NewOk, TriedOk, CountsOk, LiveOk, AddressesOk, Pick;
    PicksListing(env, s, order, index);
    forall slot | slot in s.newTable ensures s.newTable[slot] in index {
      HolderIndexed(env, s, Pick(s.info, order, false), Pick(s.info, order, true), index, slot);
    }
  }

  /** Writes the file; `order` is the order in which the entries are visited. Also returns the numbers given to
      the entries of the new table. */
  method Serialize(a: AddrMan, order: seq<int>) returns (d: Disk, index: map<int, int>)
    requires a.Shape() && Inv(a.env, a.View(), {}, {}) && Lists(a.mapInfo, order)
    ensures IndexOf(Pick(a.mapInfo, order, false), index)
    ensures d == Save(a.env, a.View(), order, index)
  {
    hide MapsOk, RandomOk, NewOk, TriedOk, CountsOk, LiveOk, AddressesOk, Table, BucketIndexes, IndexOf, Pick, Records;
    var news, unkIds := WriteEntries(a, order, false);
    index := unkIds;
    var trieds, _ := WriteEntries(a, order, true);
    HoldersIndexed(a.env, a.View(), order, unkIds);
    var buckets := [];
    var b := 0;
    while b < NEW_BUCKET_COUNT
      invariant 0 <= b <= NEW_BUCKET_COUNT
      invariant buckets == Buckets(a.View().newTable, unkIds, b)
    {
      var indexes := WriteBucket(a, unkIds, b);
      buckets := buckets + [indexes];
      b := b + 1;
    }
    d := Disk(FILE_FORMAT, INCOMPATIBILITY_BASE + FILE_FORMAT, a.nKey, FlipBit30(NEW_BUCKET_COUNT), news, trieds, buckets,
              a.env.asmapChecksum);
  }

  // ---------- reading ----------

  method ReadNew(a: AddrMan, r: Record, n: nat)
    modifies a
    ensures a.View() == LoadNew(a.env, old(a.View()).(idCount := n), r).(nNew := old(a.nNew), idCount := old(a.nIdCount))
  {
    hide Table;
    a.mapInfo := a.mapInfo[n := FromRecord(r, |a.vRandom|)];
    a.mapAddr := a.mapAddr[r.service := n];
    a.vRandom := a.vRandom + [n];
    a.AdjustCount(a.env.network(r.service.ip), 1, 0);
  }

  /** The totals and the next id play no part in loading an entry. */
  lemma {:induction false} LoadNewIgnores(env: Env, s: State, r: Record, nNew: int, nTried: int)
    ensures LoadNew(env, s.(nNew := nNew, nTried := nTried), r)
         == LoadNew(env, s, r).(nNew := nNew + 1, nTried := nTried)
    ensures LoadNew(env, s, r).nNew == s.nNew + 1 && LoadNew(env, s, r).idCount == s.idCount + 1
  {
  }

  method ReadNews(a: AddrMan, rs: seq<Record>)
    requires a.Shape() && a.View() == Empty(a.nKey).(nNew := |rs|, nTried := a.nTried)
    modifies a
    ensures a.View() == LoadNews(a.env, Empty(old(a.nKey)), rs).(nTried := old(a.nTried))
  {
    hide Table, LoadNew;
    var n := 0;
    ghost var s := Empty(a.nKey);
    while n < |rs|
      invariant 0 <= n <= |rs| && a.nTried == old(a.nTried)
      invariant LoadNews(a.env, s, rs[..n]).nNew == n && LoadNews(a.env, s, rs[..n]).idCount == n
      invariant a.View() == LoadNews(a.env, s, rs[..n]).(nNew := |rs|, nTried := a.nTried, idCount := 0)
    {
      assert rs[..n + 1][..n] == rs[..n];
      LoadNewIgnores(a.env, LoadNews(a.env, s, rs[..n]), rs[n], |rs|, a.nTried);
      ReadNew(a, rs[n], n);
      n := n + 1;
    }
    assert rs[..n] == rs;
    a.nIdCount := |rs|;
  }

  method ReadTried(a: AddrMan, r: Record) returns (stored: bool)
    requires a.Shape() && a.nIdCount >= 0
    modifies a, a.vvTried
    ensures a.View() == LoadTried(a.env, old(a.View()), r).(nTried := old(a.nTried)) && a.nIdCount >= 0
    ensures LoadTried(a.env, old(a.View()), r).nTried == old(a.nTried) + if stored then 1 else 0
  {
    hide Table, Position, TriedBucket, Adjust;
    ghost var s := a.View();
    var slot := TriedSlot(a.env, a.nKey, r.service);
    var occupant := a.TriedAt(slot);
    stored := a.env.valid(r.service.ip) && occupant == -1;
    if stored {
      a.mapInfo := a.mapInfo[a.nIdCount := FromRecord(r, |a.vRandom|).(inTried := true)];
      a.vRandom := a.vRandom + [a.nIdCount];
      a.mapAddr := a.mapAddr[r.service := a.nIdCount];
      a.SetTried(slot, a.nIdCount);
      a.nIdCount := a.nIdCount + 1;
      AdjustSame(s, a.View(), a.env.network(r.service.ip), 0, 1);
      a.AdjustCount(a.env.network(r.service.ip), 0, 1);
    }
  }

  /** The number of tried entries plays no part in loading one. */
  lemma {:induction false} LoadTriedIgnoresCount(env: Env, s: State, r: Record, n: int)
    ensures LoadTried(env, s.(nTried := n), r) == LoadTried(env, s, r).(nTried := n + LoadTried(env, s, r).nTried - s.nTried)
  {
    hide TriedSlot, FromRecord, Adjust;
    AdjustSame(s.(nTried := n), s, env.network(r.service.ip), 0, 1);
  }

  method ReadTrieds(a: AddrMan, rs: seq<Record>)
    requires a.Shape() && a.nTried == |rs| && a.nIdCount >= 0
    modifies a, a.vvTried
    ensures a.View() == LoadTrieds(a.env, old(a.View()).(nTried := 0), rs)
  {
    hide Table, LoadTried;
    var n, lost := 0, 0;
    ghost var s := a.View().(nTried := 0);
    while n < |rs|
      invariant 0 <= n <= |rs| && a.nIdCount >= 0
      invariant LoadTrieds(a.env, s, rs[..n]).nTried == n - lost
      invariant a.View() == LoadTrieds(a.env, s, rs[..n]).(nTried := |rs|)
    {
      assert rs[..n + 1][..n] == rs[..n];
      LoadTriedIgnoresCount(a.env, LoadTrieds(a.env, s, rs[..n]), rs[n], |rs|);
      var stored := ReadTried(a, rs[n]);
      if !stored {
        lost := lost + 1;
      }
      n := n + 1;
    }
    assert rs[..n] == rs;
    a.nTried := a.nTried - lost;
  }

  /** Collects the (bucket, index) pairs whose index is in range. */
  method ReadPairs(buckets: seq<seq<int>>, limit: int) returns (pairs: seq<(int, int)>)
    ensures pairs == AllPairs(buckets, limit)
  {
    pairs := [];
    var b := 0;
    while b < |buckets|
      invariant 0 <= b <= |buckets| && pairs == AllPairs(buckets[..b], limit)
    {
      var xs := buckets[b];
      ghost var sofar := pairs;
      var n := 0;
      while n < |xs|
        invariant 0 <= n <= |xs| && pairs == sofar + Pairs(b, xs[..n], limit)
      {
        assert xs[..n + 1][..n] == xs[..n];
        if 0 <= xs[n] < limit {
          pairs := pairs + [(b, xs[n])];
        }
        n := n + 1;
      }
      assert xs[..n] == xs;
      assert buckets[..b + 1][..b] == buckets[..b];
      b := b + 1;
    }
    assert buckets[..b] == buckets;
  }

  method Place(a: AddrMan, restore: bool, b: int, id: int)
    requires a.Shape() && id in a.mapInfo && id >= 0 && (restore ==> 0 <= b < NEW_BUCKET_COUNT)
    modifies a, a.vvNew
    ensures a.View() == PlacePair(a.env, old(a.View()), restore, (b, id))
    ensures a.mapInfo.Keys == old(a.mapInfo.Keys)
  {
    hide Table, NewBucket, AddrManOps.AddRef, Position;
    var i := a.mapInfo[id];
    if !a.env.valid(i.service.ip) || i.refCount >= NEW_BUCKETS_PER_ADDRESS {
      return;
    }
    PositionInBucket(a.env, a.nKey, b, i.service);
    if restore {
      var slot := (b, Position(a.env, a.nKey, true, b, i.service));
      var holder := a.NewAt(slot);
      if holder == -1 {
        AddRefKeys(a.View(), id, slot);
        a.AddRef(slot, id);
        return;
      }
    }
    var other := NewSlot(a.env, a.nKey, i.service, i.source);
    var holder := a.NewAt(other);
    if holder == -1 {
      AddRefKeys(a.View(), id, other);
      a.AddRef(other, id);
    }
  }

  lemma {:induction false} PositionInBucket(env: Env, key: Key, b: int, a: Service)
    ensures 0 <= Position(env, key, true, b, a) < BUCKET_SIZE
  {
  }

  lemma {:induction false} AddRefKeys(s: State, id: int, slot: Slot)
    requires id in s.info
    ensures AddRef(s, id, slot).info.Keys == s.info.Keys
  {
  }

  method PlaceAll(a: AddrMan, restore: bool, pairs: seq<(int, int)>)
    requires a.Shape()
    requires forall k :: 0 <= k < |pairs| ==> var id := pairs[k].1; id in a.mapInfo && id >= 0
    requires restore ==> forall k :: 0 <= k < |pairs| ==> 0 <= pairs[k].0 < NEW_BUCKET_COUNT
    modifies a, a.vvNew
    ensures a.View() == PlacePairs(a.env, old(a.View()), restore, pairs)
    ensures a.mapInfo.Keys == old(a.mapInfo.Keys)
  {
    hide Table, PlacePair;
    ghost var s := a.View();
    var n := 0;
    while n < |pairs|
      invariant 0 <= n <= |pairs| && a.View() == PlacePairs(a.env, s, restore, pairs[..n])
      invariant a.mapInfo.Keys == s.info.Keys
    {
      assert pairs[..n + 1][..n] == pairs[..n];
      var (b, id) := pairs[n];
      assert id in s.info.Keys;
      Place(a, restore, b, id);
      n := n + 1;
    }
    assert pairs[..n] == pairs;
  }

  function PruneOne(env: Env, s: State, id: int): State
    requires RandomOk(s)
  {
    if id in s.info && !s.info[id].inTried && s.info[id].refCount == 0 then Delete(env, s, id) else s
  }

  lemma {:induction false} PruneAppend(env: Env, s: State, order: seq<int>, id: int)
    requires RandomOk(s)
    ensures RandomOk(Prune(env, s, order))
    ensures Prune(env, s, order + [id]) == PruneOne(env, Prune(env, s, order), id)
    decreases |order|
  {
    hide RandomOk, Delete;
    if order == [] {
      assert ([id])[1..] == [];
    } else {
      assert (order + [id])[1..] == order[1..] + [id];
      var x := order[0];
      if x in s.info && !s.info[x].inTried && s.info[x].refCount == 0 {
        DeleteRandom(env, s, x);
        PruneAppend(env, Delete(env, s, x), order[1..], id);
      } else {
        PruneAppend(env, s, order[1..], id);
      }
    }
  }

  /** Deletes every entry that is in no table; returns the order in which the entries were visited. */
  method PruneAll(a: AddrMan) returns (ghost order: seq<int>)
    requires RandomOk(a.View())
    modifies a
    ensures a.View() == Prune(a.env, old(a.View()), order)
    ensures forall id :: id in old(a.mapInfo) ==> id in order
  {
    hide Table, RandomOk, AddrManState.Delete;
    ghost var s := a.View();
    order := [];
    var rest := a.mapInfo.Keys;
    while rest != {}
      invariant RandomOk(a.View()) && a.View() == Prune(a.env, s, order)
      invariant forall id :: id in s.info ==> id in rest || id in order
      decreases |rest|
    {
      if !exists id :: id in rest {
        assert false;
      }
      var id :| id in rest;
      PruneAppend(a.env, s, order, id);
      if id in a.mapInfo && !a.mapInfo[id].inTried && a.mapInfo[id].refCount == 0 {
        DeleteRandom(a.env, a.View(), id);
        a.Delete(id);
      }
      order := order + [id];
      rest := rest - {id};
    }
  }

  lemma {:induction false} LoadNewsIds(env: Env, key: Key, rs: seq<Record>)
    ensures var t := LoadNews(env, Empty(key), rs);
      t.idCount == t.nNew == |rs| && t.nTried == 0 && forall id :: 0 <= id < |rs| ==> id in t.info
    decreases |rs|
  {
    if rs != [] {
      LoadNewsIds(env, key, rs[..|rs| - 1]);
    }
  }

  lemma {:induction false} LoadTriedsIds(env: Env, s: State, rs: seq<Record>)
    requires s.idCount >= 0
    ensures LoadTrieds(env, s, rs).idCount >= 0
    ensures forall id :: id in s.info ==> id in LoadTrieds(env, s, rs).info
    decreases |rs|
  {
    hide TriedSlot;
    if rs != [] {
      LoadTriedsIds(env, s, rs[..|rs| - 1]);
    }
  }

  lemma {:induction false} EmptyRandom(key: Key)
    ensures RandomOk(Empty(key))
  {
  }

  /** Reads what follows the header of the file. */
  method ReadEntries(a: AddrMan, d: Disk) returns (ghost pruneOrder: seq<int>)
    requires a.Shape() && a.View() == Empty(a.nKey) && |d.buckets| == RawBucketCount(d)
    modifies a, a.vvNew, a.vvTried
    ensures a.View() == Rebuild(a.env, d, pruneOrder)
    ensures forall id :: 0 <= id < |d.news| ==> id in pruneOrder
  {
    hide Table, RandomOk, LoadNews, LoadTrieds, PlacePairs, AllPairs, Prune;
    a.nKey, a.nNew, a.nTried := d.key, |d.news|, |d.trieds|;
    ReadNews(a, d.news);
    ghost var n := LoadNews(a.env, Empty(d.key), d.news);
    LoadNewsIds(a.env, d.key, d.news);
    ReadTrieds(a, d.trieds);
    LoadTriedsIds(a.env, n, d.trieds);
    var pairs := ReadPairs(d.buckets, |d.news|);
    AllPairsInRange(d.buckets, |d.news|);
    forall k | 0 <= k < |pairs| ensures var id := pairs[k].1; id in a.mapInfo && id >= 0 {
      var id := pairs[k].1;
      assert id in n.info;
    }
    EmptyRandom(d.key);
    LoadsRandom(a.env, Empty(d.key), d.news);
    LoadsRandom(a.env, n, d.trieds);
    PlacePairsRandom(a.env, a.View(), Restorable(a.env, d), pairs);
    PlaceAll(a, Restorable(a.env, d), pairs);
    forall id | 0 <= id < |d.news| ensures id in a.mapInfo {
      assert id in n.info;
    }
    pruneOrder := PruneAll(a);
  }

  datatype ReadStatus = ReadOk | ReadIncompatible | ReadCorrupt

  /** Reads the file into a new address manager. */
  method Unserialize(a: AddrMan, d: Disk) returns (status: ReadStatus, ghost pruneOrder: seq<int>)
    requires a.Shape() && a.View() == Empty(a.nKey)
    modifies a, a.vvNew, a.vvTried
    ensures var r := Load(a.env, d, pruneOrder);
      && (status.ReadOk? <==> r.Loaded?) && (status.ReadIncompatible? <==> r.Incompatible?)
      && (r.Loaded? ==> a.View() == r.s)
    ensures Readable(d) ==> forall id :: 0 <= id < |d.news| ==> id in pruneOrder
    ensures status.ReadIncompatible? <==> d.compat > INCOMPATIBILITY_BASE + FILE_FORMAT
    ensures status.ReadOk? ==> Readable(d)
    ensures Readable(d) && Sane(a.env, d) ==> status.ReadOk?
  {
    hide Rebuild, Checked, Sane;
    pruneOrder := [];
    if d.compat < INCOMPATIBILITY_BASE {
      return ReadCorrupt, [];
    }
    if d.compat - INCOMPATIBILITY_BASE > FILE_FORMAT {
      return ReadIncompatible, [];
    }
    if |d.news| > NEW_BUCKET_COUNT * BUCKET_SIZE || |d.trieds| > TRIED_BUCKET_COUNT * BUCKET_SIZE || |d.buckets| != RawBucketCount(d) {
      return ReadCorrupt, [];
    }
    pruneOrder := ReadEntries(a, d);
    if Sane(a.env, d) {
      SaneRead(a.env, d, pruneOrder);
    }
    var err := CheckAddrman(a);
    status := if err == 0 then ReadOk else ReadCorrupt;
  }

  lemma {:induction false} SaneRead(env: Env, d: Disk, pruneOrder: seq<int>)
    requires Readable(d) && Sane(env, d) && forall id :: 0 <= id < |d.news| ==> id in pruneOrder
    ensures Load(env, d, pruneOrder).Loaded?
  {
    SaneLoads(env, d, pruneOrder);
  }
}

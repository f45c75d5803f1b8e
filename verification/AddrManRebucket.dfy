/** Loading a file under another map of the network, or one that is not a saved state: which address gets which slot. */
module AddrManRebucket {
  import opened Options
  import opened AddrManState
  import opened AddrManInvariant
  import opened AddrManOps
  import opened AddrManRun
  import opened AddrManCheck
  import opened AddrManDisk

  // ---------- first come, first served ----------

  /** The first place of a slot in a list of wanted slots; -1 if nobody wants it. */
  function First(wants: seq<Slot>, slot: Slot): (m: int)
    ensures -1 <= m < |wants|
    ensures m >= 0 ==> wants[m] == slot && forall i :: 0 <= i < m ==> wants[i] != slot
    ensures m == -1 ==> slot !in wants
  {
    if wants == [] then -1 else
      var m := First(wants[..|wants| - 1], slot);
      if m >= 0 then m else if wants[|wants| - 1] == slot then |wants| - 1 else -1
  }

  lemma {:induction false} FirstMore(wants: seq<Slot>, w: Slot, slot: Slot)
    ensures First(wants + [w], slot) ==
      if First(wants, slot) >= 0 then First(wants, slot) else if w == slot then |wants| else -1
  {
    assert (wants + [w])[..|wants|] == wants;
  }

  /** Each wanted slot holds the first record that wants it; no other slot is taken. */
  ghost predicate FirstServed(table: map<Slot, int>, info: map<int, AddrInfo>, records: seq<Record>, wants: seq<Slot>)
    requires |records| == |wants|
  {
    forall slot ::
      && (slot in table <==> slot in wants)
      && (slot in table ==> var id := table[slot]; id in info && ToRecord(info[id]) == records[First(wants, slot)])
  }

  /** One record more: it gets the slot it wants if that is free. */
  lemma {:induction false} ServedMore(table: map<Slot, int>, info: map<int, AddrInfo>, table': map<Slot, int>, info': map<int, AddrInfo>,
                                      records: seq<Record>, r: Record, wants: seq<Slot>, w: Slot)
    requires |records| == |wants| && FirstServed(table, info, records, wants)
    requires forall id :: id in info ==> id in info' && ToRecord(info'[id]) == ToRecord(info[id])
    requires if w in table then table' == table
      else w in table' && table' == table[w := table'[w]] && table'[w] in info' && ToRecord(info'[table'[w]]) == r
    ensures FirstServed(table', info', records + [r], wants + [w])
  {
    hide First, ToRecord;
    forall slot
      ensures slot in table' <==> slot in wants + [w]
      ensures slot in table' ==>
        var id := table'[slot]; id in info' && ToRecord(info'[id]) == (records + [r])[First(wants + [w], slot)]
    {
      FirstMore(wants, w, slot);
      assert slot in table <==> slot in wants;
    }
  }

  function TriedWants(env: Env, key: Key, records: seq<Record>): (wants: seq<Slot>)
    ensures |wants| == |records|
  {
    seq(|records|, i requires 0 <= i < |records| => TriedSlot(env, key, records[i].service))
  }

  /** The new slots that records want on account of their own sources. */
  function NewWants(env: Env, key: Key, records: seq<Record>): (wants: seq<Slot>)
    ensures |wants| == |records|
  {
    seq(|records|, i requires 0 <= i < |records| => NewSlot(env, key, records[i].service, records[i].source))
  }

  // ---------- files ----------

  ghost predicate DifferentAddresses(records: seq<Record>) {
    forall i, j :: 0 <= i < j < |records| ==> records[i].service != records[j].service
  }

  /** Nothing that reading the header rejects. */
  ghost predicate Readable(d: Disk) {
    && INCOMPATIBILITY_BASE <= d.compat <= INCOMPATIBILITY_BASE + FILE_FORMAT
    && |d.news| <= NEW_BUCKET_COUNT * BUCKET_SIZE && |d.trieds| <= TRIED_BUCKET_COUNT * BUCKET_SIZE
    && |d.buckets| == RawBucketCount(d)
  }

  /** No address twice, all of them routable, the tried ones with a success; any indexes in the buckets. */
  ghost predicate Sane(env: Env, d: Disk) {
    && d.key != 0 && DifferentAddresses(d.news + d.trieds)
    && (forall i :: 0 <= i < |d.news| ==> Routable(env, d.news[i].service.ip) && d.news[i].lastSuccess >= 0)
    && (forall i :: 0 <= i < |d.trieds| ==> Routable(env, d.trieds[i].service.ip) && d.trieds[i].lastSuccess > 0)
  }

  // ---------- the first list ----------

  /** The records read so far are the entries, under consecutive ids. */
  ghost predicate NewsLoaded(t: State, key: Key, records: seq<Record>) {
    && t.key == key && t.idCount == |records| && |t.random| == |records| && t.collisions == {}
    && t.newTable == map[] && t.triedTable == map[]
    && (forall j :: j in t.info <==> 0 <= j < |records|)
    && (forall j :: 0 <= j < |records| ==> t.info[j] == FromRecord(records[j], j))
  }

  ghost predicate Listed(records: seq<Record>, a: Service) {
    exists i :: 0 <= i < |records| && records[i].service == a
  }

  lemma {:induction false} NewAddresses(t: State, key: Key, records: seq<Record>)
    requires MapsOk(t) && NewsLoaded(t, key, records)
    ensures forall a :: a in t.ids ==> Listed(records, a)
  {
    forall a | a in t.ids ensures Listed(records, a) {
      var j := t.ids[a];
      assert j in t.info && records[j].service == a;
    }
  }

  lemma {:induction false} LoadNewLoaded(env: Env, t: State, key: Key, records: seq<Record>, r: Record)
    requires NewsLoaded(t, key, records)
    ensures NewsLoaded(LoadNew(env, t, r), key, records + [r])
  {
  }

  lemma {:induction false} NewsSane(env: Env, d: Disk, k: nat)
    requires Sane(env, d) && k <= |d.news|
    ensures var t := LoadNews(env, Empty(d.key), d.news[..k]);
      Inv(env, t, {}, Below(k)) && NewsLoaded(t, d.key, d.news[..k])
    decreases k
  {
    hide MapsOk, RandomOk, NewOk, TriedOk, CountsOk, LiveOk, AddressesOk, LoadNew, LoadNews, Below, NewsLoaded;
    if k == 0 {
      NoNews(env, d);
    } else {
      NewsSane(env, d, k - 1);
      LoadNewsMore(env, Empty(d.key), d.news, k - 1);
      var t, front, r := LoadNews(env, Empty(d.key), d.news[..k - 1]), d.news[..k - 1], d.news[k - 1];
      forall j | 0 <= j < |front| ensures front[j].service != r.service {
        assert (d.news + d.trieds)[j] == front[j] && (d.news + d.trieds)[k - 1] == r;
      }
      NewAddresses(t, d.key, front);
      LoadNewLoaded(env, t, d.key, front, r);
      IdsSoFar(t, d.key, front);
      LoadNewKeeps(env, t, r, Below(k - 1));
      assert Below(k - 1) + {k - 1} == Below(k);
      assert front + [r] == d.news[..k];
    }
  }

  lemma {:induction false} IdsSoFar(t: State, key: Key, records: seq<Record>)
    requires NewsLoaded(t, key, records)
    ensures t.idCount == |records|
  {
  }

  lemma {:induction false} NoNews(env: Env, d: Disk)
    ensures var t := LoadNews(env, Empty(d.key), d.news[..0]); Inv(env, t, {}, Below(0)) && NewsLoaded(t, d.key, d.news[..0])
  {
    EmptyInv(env, d.key);
    assert Below(0) == {};
    assert LoadNews(env, Empty(d.key), d.news[..0]) == Empty(d.key);
  }

  // ---------- the second list ----------

  /** After some records of the second list: the first list is there, and the tried slots are served in order. */
  ghost predicate TriedsLoaded(env: Env, t: State, key: Key, news: seq<Record>, records: seq<Record>) {
    && t.key == key && t.collisions == {} && t.newTable == map[] && t.idCount >= |news|
    && (forall j :: 0 <= j < |news| ==> j in t.info && t.info[j] == FromRecord(news[j], j))
    && (forall j :: j in t.info && !(0 <= j < |news|) ==> t.info[j].inTried && t.info[j].lastTry == 0)
    && FirstServed(t.triedTable, t.info, records, TriedWants(env, key, records))
  }

  lemma {:induction false} AllAddresses(env: Env, t: State, key: Key, news: seq<Record>, records: seq<Record>)
    requires MapsOk(t) && TriedOk(env, t) && TriedsLoaded(env, t, key, news, records)
    ensures forall a :: a in t.ids ==> Listed(news, a) || Listed(records, a)
  {
    hide TriedSlot;
    forall a | a in t.ids ensures Listed(news, a) || Listed(records, a) {
      var j := t.ids[a];
      assert j in t.info && t.info[j].service == a;
      if 0 <= j < |news| {
        assert news[j].service == a;
      } else {
        var slot := TriedSlot(env, t.key, a);
        assert t.info[j].inTried && slot in t.triedTable && t.triedTable[slot] == j;
        assert ToRecord(t.info[j]) == records[First(TriedWants(env, key, records), slot)];
      }
    }
  }

  lemma {:induction false} LoadTriedLoaded(env: Env, t: State, key: Key, news: seq<Record>, records: seq<Record>, r: Record)
    requires (forall id :: id in t.info ==> id < t.idCount) && TriedsLoaded(env, t, key, news, records) && env.valid(r.service.ip)
    ensures TriedsLoaded(env, LoadTried(env, t, r), key, news, records + [r])
  {
    hide TriedSlot, First, FirstServed;
    var u := LoadTried(env, t, r);
    var wants, w := TriedWants(env, key, records), TriedSlot(env, key, r.service);
    assert TriedWants(env, key, records + [r]) == wants + [w];
    ServedMore(t.triedTable, t.info, u.triedTable, u.info, records, r, wants, w);
  }

  lemma {:induction false} TriedsSane(env: Env, d: Disk, base: State, k: nat)
    requires Sane(env, d) && k <= |d.trieds|
    requires Inv(env, base, {}, Below(|d.news|)) && NewsLoaded(base, d.key, d.news)
    ensures var t := LoadTrieds(env, base, d.trieds[..k]);
      Inv(env, t, {}, Below(|d.news|)) && TriedsLoaded(env, t, d.key, d.news, d.trieds[..k])
    decreases k
  {
    hide MapsOk, RandomOk, NewOk, TriedOk, CountsOk, LiveOk, AddressesOk, LoadTried, Below, NewsLoaded, TriedsLoaded;
    if k == 0 {
      NoTrieds(env, d, base);
    } else {
      TriedsSane(env, d, base, k - 1);
      assert d.trieds[..k][..k - 1] == d.trieds[..k - 1];
      TriedSane(env, d, LoadTrieds(env, base, d.trieds[..k - 1]), k - 1);
    }
  }

  lemma {:induction false} NoTrieds(env: Env, d: Disk, base: State)
    requires NewsLoaded(base, d.key, d.news)
    ensures LoadTrieds(env, base, d.trieds[..0]) == base && TriedsLoaded(env, base, d.key, d.news, d.trieds[..0])
  {
  }

  lemma {:induction false} TriedSane(env: Env, d: Disk, t: State, k: nat)
    requires Sane(env, d) && k < |d.trieds|
    requires Inv(env, t, {}, Below(|d.news|)) && TriedsLoaded(env, t, d.key, d.news, d.trieds[..k])
    ensures var u := LoadTried(env, t, d.trieds[k]);
      Inv(env, u, {}, Below(|d.news|)) && TriedsLoaded(env, u, d.key, d.news, d.trieds[..k + 1])
  {
    hide MapsOk, RandomOk, NewOk, TriedOk, CountsOk, LiveOk, AddressesOk, Below, TriedsLoaded, TriedSlot;
    var front, r, all := d.trieds[..k], d.trieds[k], d.news + d.trieds;
    assert all[|d.news| + k] == r;
    forall j | 0 <= j < |front| ensures front[j].service != r.service {
      assert all[|d.news| + j] == front[j];
    }
    forall j | 0 <= j < |d.news| ensures d.news[j].service != r.service {
      assert all[j] == d.news[j];
    }
    AllAddresses(env, t, d.key, d.news, front);
    IdsBelow(t);
    LoadTriedLoaded(env, t, d.key, d.news, front, r);
    assert front + [r] == d.trieds[..k + 1];
    if TriedSlot(env, t.key, r.service) !in t.triedTable {
      LoadTriedKeeps(env, t, r, Below(|d.news|));
    }
  }

  // ---------- the new slots ----------

  /** The untried entries without a slot. */
  function Idle(s: State): set<int> {
    set id | id in s.info && !s.info[id].inTried && s.info[id].refCount == 0
  }

  lemma {:induction false} IdleIs(s: State, idle: set<int>)
    requires LiveOk(s, idle)
    ensures idle == Idle(s)
  {
    assert forall id :: id in idle <==> id in Idle(s);
  }

  /** Nothing but new slots and reference counts has changed. */
  ghost predicate OnlyPlaced(s: State, t: State) {
    && t == s.(info := t.info, newTable := t.newTable) && t.info.Keys == s.info.Keys
    && forall id :: id in s.info ==> t.info[id] == s.info[id].(refCount := t.info[id].refCount)
  }

  lemma {:induction false} AddRefPlaces(env: Env, s: State, id: int, slot: Slot)
    requires Inv(env, s, {}, Idle(s)) && MayHold(env, s, id, slot) && slot !in s.newTable
    ensures var t := AddRef(s, id, slot); Inv(env, t, {}, Idle(t)) && OnlyPlaced(s, t)
  {
    hide MapsOk, RandomOk, NewOk, TriedOk, CountsOk, LiveOk, AddressesOk, Idle;
    AddRefKeeps(env, s, id, slot, Idle(s));
    IdleIs(AddRef(s, id, slot), Idle(s) - {id});
  }

  lemma {:induction false} PlacePairKeeps(env: Env, s: State, restore: bool, b: int, id: int)
    requires Inv(env, s, {}, Idle(s)) && (restore ==> 0 <= b < NEW_BUCKET_COUNT) && (id in s.info ==> !s.info[id].inTried)
    ensures var t := PlacePair(env, s, restore, (b, id)); Inv(env, t, {}, Idle(t)) && OnlyPlaced(s, t)
  {
    hide Inv, Idle, AddRef, OnlyPlaced, Position, NewBucket;
    NothingPlaced(s);
    if id in s.info && env.valid(s.info[id].service.ip) && s.info[id].refCount < NEW_BUCKETS_PER_ADDRESS {
      var i := s.info[id];
      var slot, other := (b, Position(env, s.key, true, b, i.service)), NewSlot(env, s.key, i.service, i.source);
      if restore && slot !in s.newTable {
        AddRefPlaces(env, s, id, slot);
      } else if other !in s.newTable {
        AddRefPlaces(env, s, id, other);
      }
    }
  }

  lemma {:induction false} NothingPlaced(s: State)
    ensures OnlyPlaced(s, s)
  {
  }

  lemma {:induction false} PlacedTwice(s: State, t: State, u: State)
    requires OnlyPlaced(s, t) && OnlyPlaced(t, u)
    ensures OnlyPlaced(s, u)
  {
  }

  /** The pairs name untried entries, and buckets that exist if they are to be restored. */
  ghost predicate Placeable(s: State, restore: bool, pairs: seq<(int, int)>) {
    forall k :: 0 <= k < |pairs| ==>
      (restore ==> 0 <= pairs[k].0 < NEW_BUCKET_COUNT) && pairs[k].1 in s.info && !s.info[pairs[k].1].inTried
  }

  lemma {:induction false} PlacePairsKeeps(env: Env, s: State, restore: bool, pairs: seq<(int, int)>)
    requires Inv(env, s, {}, Idle(s)) && Placeable(s, restore, pairs)
    ensures var t := PlacePairs(env, s, restore, pairs); Inv(env, t, {}, Idle(t)) && OnlyPlaced(s, t)
    decreases |pairs|
  {
    hide Inv, Idle, PlacePair, OnlyPlaced;
    if pairs == [] {
      NothingPlaced(s);
    } else {
      var front := pairs[..|pairs| - 1];
      PlacePairsKeeps(env, s, restore, front);
      var t := PlacePairs(env, s, restore, front);
      var (b, id) := pairs[|pairs| - 1];
      StillUntried(s, t, id);
      PlacePairKeeps(env, t, restore, b, id);
      PlacedTwice(s, t, PlacePair(env, t, restore, (b, id)));
    }
  }

  lemma {:induction false} StillUntried(s: State, t: State, id: int)
    requires OnlyPlaced(s, t) && id in s.info && !s.info[id].inTried
    ensures id in t.info && !t.info[id].inTried && ToRecord(t.info[id]) == ToRecord(s.info[id]) && t.key == s.key
  {
  }

  /** The records of the paired entries. */
  function PairRecords(info: map<int, AddrInfo>, pairs: seq<(int, int)>): (r: seq<Record>)
    requires forall k :: 0 <= k < |pairs| ==> pairs[k].1 in info
    ensures |r| == |pairs|
  {
    seq(|pairs|, k requires 0 <= k < |pairs| => ToRecord(info[pairs[k].1]))
  }

  /** Served in order, an entry has at most the slot that it wants itself. */
  lemma {:induction false} AtMostOne(env: Env, s: State, records: seq<Record>, id: int)
    requires NewOk(env, s) && id in s.info
    requires FirstServed(s.newTable, s.info, records, NewWants(env, s.key, records))
    ensures s.info[id].refCount <= 1
  {
    hide NewSlot, Position, First;
    var slot := NewSlot(env, s.key, s.info[id].service, s.info[id].source);
    forall p | p in Refs(s.newTable, id) ensures p in {slot} {
      var wants := NewWants(env, s.key, records);
      assert p in s.newTable && ToRecord(s.info[id]) == records[First(wants, p)];
      assert wants[First(wants, p)] == p;
    }
    Subsets(Refs(s.newTable, id), {slot});
  }

  lemma {:induction false} Subsets(a: set<Slot>, b: set<Slot>)
    requires a <= b
    ensures |a| <= |b|
  {
    assert b == a + (b - a);
  }

  /** Without restoring, the new slots are served in order too. */
  lemma {:induction false} RebucketServes(env: Env, s: State, pairs: seq<(int, int)>)
    requires Inv(env, s, {}, Idle(s)) && s.newTable == map[] && Placeable(s, false, pairs)
    ensures var t := PlacePairs(env, s, false, pairs); var records := PairRecords(s.info, pairs);
      FirstServed(t.newTable, t.info, records, NewWants(env, s.key, records))
    decreases |pairs|
  {
    hide Inv, Idle, PlacePair, OnlyPlaced, FirstServed;
    var records := PairRecords(s.info, pairs);
    if pairs == [] {
      NobodyServed(env, s);
    } else {
      var n := |pairs| - 1;
      RebucketServes(env, s, pairs[..n]);
      PlacePairsKeeps(env, s, false, pairs[..n]);
      var t := PlacePairs(env, s, false, pairs[..n]);
      var (b, id) := pairs[n];
      StillUntried(s, t, id);
      assert records[..n] == PairRecords(s.info, pairs[..n]);
      PlacePairServes(env, t, records[..n], b, id);
      assert records[..n] + [records[n]] == records;
    }
  }

  lemma {:induction false} NobodyServed(env: Env, s: State)
    requires s.newTable == map[]
    ensures FirstServed(s.newTable, s.info, [], NewWants(env, s.key, []))
  {
  }

  lemma {:induction false} PlacePairServes(env: Env, t: State, records: seq<Record>, b: int, id: int)
    requires Inv(env, t, {}, Idle(t)) && id in t.info && !t.info[id].inTried
    requires FirstServed(t.newTable, t.info, records, NewWants(env, t.key, records))
    ensures var u, more := PlacePair(env, t, false, (b, id)), records + [ToRecord(t.info[id])];
      FirstServed(u.newTable, u.info, more, NewWants(env, t.key, more))
  {
    hide MapsOk, RandomOk, NewOk, TriedOk, CountsOk, LiveOk, Idle, FirstServed, NewSlot, Position, First;
    AtMostOne(env, t, records, id);
    var u, r := PlacePair(env, t, false, (b, id)), ToRecord(t.info[id]);
    var wants, w := NewWants(env, t.key, records), NewSlot(env, t.key, r.service, r.source);
    assert NewWants(env, t.key, records + [r]) == wants + [w];
    ServedMore(t.newTable, t.info, u.newTable, u.info, records, r, wants, w);
  }

  // ---------- pruning ----------

  /** Entries are the same as far as they are still there, and the tables are the same. */
  ghost predicate OnlyPruned(s: State, t: State) {
    && Kept(s, t) && t.newTable == s.newTable && t.triedTable == s.triedTable
    && forall id :: id in t.info ==> id in s.info && SameEntry(s.info[id], t.info[id])
  }

  lemma {:induction false} PruneKeeps(env: Env, s: State, order: seq<int>)
    requires Inv(env, s, {}, Idle(s)) && forall id :: id in Idle(s) ==> id in order
    ensures Inv(env, Prune(env, s, order), {}, {}) && OnlyPruned(s, Prune(env, s, order))
    decreases |order|
  {
    hide MapsOk, RandomOk, NewOk, TriedOk, CountsOk, LiveOk, AddressesOk, Delete, OnlyPruned;
    if order == [] {
      assert forall id :: id !in Idle(s);
      assert Idle(s) == {};
      NothingPruned(s);
    } else {
      var id := order[0];
      if id in Idle(s) {
        var u := Delete(env, s, id);
        DeleteKeeps(env, s, id, {}, Idle(s));
        IdleIs(u, Idle(s) - {id});
        PruneKeeps(env, u, order[1..]);
        DeletePrunes(env, s, id);
        PrunedTwice(s, u, Prune(env, u, order[1..]));
      } else {
        PruneKeeps(env, s, order[1..]);
      }
    }
  }

  lemma {:induction false} NothingPruned(s: State)
    ensures OnlyPruned(s, s)
  {
  }

  lemma {:induction false} DeletePrunes(env: Env, s: State, id: int)
    requires RandomOk(s) && id in Idle(s)
    ensures OnlyPruned(s, Delete(env, s, id))
  {
    hide RandomOk, Delete;
    DeleteFrame(env, s, id);
  }

  lemma {:induction false} PrunedTwice(s: State, t: State, u: State)
    requires OnlyPruned(s, t) && OnlyPruned(t, u)
    ensures OnlyPruned(s, u)
  {
  }

  // ---------- the whole load ----------

  /** The records that the buckets of a file name, in the order of the buckets. */
  function Named(d: Disk): (records: seq<Record>) {
    AllPairsInRange(d.buckets, |d.news|);
    var pairs := AllPairs(d.buckets, |d.news|);
    seq(|pairs|, k requires 0 <= k < |pairs| => d.news[pairs[k].1])
  }

  /** The state before the entries get their new slots. */
  function Unplaced(env: Env, d: Disk): State {
    LoadTrieds(env, LoadNews(env, Empty(d.key), d.news), d.trieds)
  }

  lemma {:induction false} UnplacedSane(env: Env, d: Disk)
    requires Sane(env, d)
    ensures var t := Unplaced(env, d);
      && Inv(env, t, {}, Idle(t)) && TriedsLoaded(env, t, d.key, d.news, d.trieds)
      && Idle(t) == Below(|d.news|)
  {
    hide MapsOk, RandomOk, NewOk, TriedOk, CountsOk, LiveOk, AddressesOk, Idle, Below, NewsLoaded, TriedsLoaded;
    NewsSane(env, d, |d.news|);
    assert d.news[..|d.news|] == d.news;
    TriedsSane(env, d, LoadNews(env, Empty(d.key), d.news), |d.trieds|);
    assert d.trieds[..|d.trieds|] == d.trieds;
    IdleIs(Unplaced(env, d), Below(|d.news|));
  }

  lemma {:induction false} UnplacedPlaceable(env: Env, d: Disk, t: State)
    requires TriedsLoaded(env, t, d.key, d.news, d.trieds) && |d.buckets| == RawBucketCount(d)
    ensures var pairs := AllPairs(d.buckets, |d.news|);
      Placeable(t, Restorable(env, d), pairs) && PairRecords(t.info, pairs) == Named(d)
  {
    hide FirstServed;
    AllPairsInRange(d.buckets, |d.news|);
  }

  lemma {:induction false} StillServed(table: map<Slot, int>, info: map<int, AddrInfo>, info': map<int, AddrInfo>,
                                       records: seq<Record>, wants: seq<Slot>)
    requires |records| == |wants| && FirstServed(table, info, records, wants)
    requires forall slot :: slot in table ==> var id := table[slot]; id in info && id in info' && ToRecord(info'[id]) == ToRecord(info[id])
    ensures FirstServed(table, info', records, wants)
  {
    hide First, ToRecord;
  }

  lemma {:induction false} TimesSane(env: Env, d: Disk, s: State, t: State, u: State)
    requires Sane(env, d) && TriedOk(env, s) && TriedsLoaded(env, s, d.key, d.news, d.trieds)
    requires OnlyPlaced(s, t) && OnlyPruned(t, u)
    ensures TimesOk(u) && u.key != 0 && u.collisions == {}
  {
    hide TriedSlot, First;
    forall id | id in u.info
      ensures u.info[id].lastTry >= 0 && u.info[id].lastSuccess >= 0 && (u.info[id].inTried ==> u.info[id].lastSuccess != 0)
    {
      assert SameEntry(t.info[id], u.info[id]) && id in s.info;
      if !(0 <= id < |d.news|) {
        var slot := TriedSlot(env, s.key, s.info[id].service);
        assert slot in s.triedTable && s.triedTable[slot] == id;
        var m := First(TriedWants(env, d.key, d.trieds), slot);
        assert ToRecord(s.info[id]) == d.trieds[m];
      }
    }
  }

  lemma {:induction false} IdleListed(env: Env, d: Disk, s: State, t: State)
    requires TriedsLoaded(env, s, d.key, d.news, d.trieds) && OnlyPlaced(s, t)
    ensures t.key == d.key && forall id :: id in Idle(t) ==> 0 <= id < |d.news|
  {
    hide FirstServed;
  }

  lemma {:induction false} NoNewSlots(env: Env, d: Disk, s: State)
    requires TriedsLoaded(env, s, d.key, d.news, d.trieds)
    ensures s.newTable == map[] && s.key == d.key
  {
  }

  lemma {:induction false} TriedServed(env: Env, d: Disk, s: State, t: State, u: State)
    requires TriedsLoaded(env, s, d.key, d.news, d.trieds) && OnlyPlaced(s, t) && OnlyPruned(t, u) && TriedOk(env, u)
    ensures FirstServed(u.triedTable, u.info, d.trieds, TriedWants(env, d.key, d.trieds)) && u.key == d.key
  {
    hide TriedSlot, First;
    forall slot | slot in u.triedTable
      ensures var id := u.triedTable[slot]; id in s.info && id in u.info && ToRecord(u.info[id]) == ToRecord(s.info[id])
    {
      var id := u.triedTable[slot];
      assert id in u.info && SameEntry(t.info[id], u.info[id]);
    }
    StillServed(u.triedTable, s.info, u.info, d.trieds, TriedWants(env, d.key, d.trieds));
  }

  lemma {:induction false} NewServed(env: Env, t: State, u: State, records: seq<Record>)
    requires OnlyPruned(t, u) && NewOk(env, u) && FirstServed(t.newTable, t.info, records, NewWants(env, t.key, records))
    ensures FirstServed(u.newTable, u.info, records, NewWants(env, t.key, records))
  {
    hide NewSlot, Position, First;
    forall slot | slot in u.newTable
      ensures var id := u.newTable[slot]; id in t.info && id in u.info && ToRecord(u.info[id]) == ToRecord(t.info[id])
    {
      var id := u.newTable[slot];
      assert id in u.info && SameEntry(t.info[id], u.info[id]);
    }
    StillServed(u.newTable, t.info, u.info, records, NewWants(env, t.key, records));
  }

  /** Every readable file of routable addresses without repetition loads, whatever its buckets say, into a consistent
      state. Tried slots go to the first record that wants them; if the buckets cannot be restored, so do new slots. */
  lemma {:induction false} SaneLoads(env: Env, d: Disk, pruneOrder: seq<int>)
    requires Readable(d) && Sane(env, d) && forall id :: 0 <= id < |d.news| ==> id in pruneOrder
    ensures var r := Load(env, d, pruneOrder);
      && r.Loaded? && Consistent(env, r.s) && TimesOk(r.s) && r.s.key == d.key
      && FirstServed(r.s.triedTable, r.s.info, d.trieds, TriedWants(env, d.key, d.trieds))
      && (!Restorable(env, d) ==> FirstServed(r.s.newTable, r.s.info, Named(d), NewWants(env, d.key, Named(d))))
  {
    hide MapsOk, RandomOk, NewOk, TriedOk, CountsOk, LiveOk, AddressesOk, Idle, Below, LoadNews, LoadTrieds, PlacePairs, AllPairs,
         Prune, Placeable, OnlyPlaced, OnlyPruned, FirstServed, TimesOk, Checked, Named, Restorable, Sane, TriedsLoaded;
    var s, pairs := Unplaced(env, d), AllPairs(d.buckets, |d.news|);
    UnplacedSane(env, d);
    UnplacedPlaceable(env, d, s);
    PlacePairsKeeps(env, s, Restorable(env, d), pairs);
    var t := PlacePairs(env, s, Restorable(env, d), pairs);
    IdleListed(env, d, s, t);
    PruneKeeps(env, t, pruneOrder);
    var u := Prune(env, t, pruneOrder);
    assert u == Rebuild(env, d, pruneOrder);
    TimesSane(env, d, s, t, u);
    ConsistentChecked(env, u);
    TriedServed(env, d, s, t, u);
    if !Restorable(env, d) {
      NoNewSlots(env, d, s);
      RebucketServes(env, s, pairs);
      NewServed(env, t, u, Named(d));
    }
  }

  // ---------- another map of the network ----------

  /** The slot an entry gets on account of its own address and source. */
  function OwnSlot(env: Env, key: Key, i: AddrInfo): Slot {
    if i.inTried then TriedSlot(env, key, i.service) else NewSlot(env, key, i.service, i.source)
  }

  /** Another entry of the same table gets the same slot. */
  ghost predicate Contested(env: Env, s: State, id: int)
    requires id in s.info
  {
    exists x :: x in s.info && x != id && s.info[x].inTried == s.info[id].inTried
      && OwnSlot(env, s.key, s.info[x]) == OwnSlot(env, s.key, s.info[id])
  }

  /** The same address, with the same persisted fields, in the same table. */
  ghost predicate SameRecord(i: AddrInfo, j: AddrInfo) {
    ToRecord(i) == ToRecord(j) && i.inTried == j.inTried
  }

  ghost predicate Carried(s: State, id: int, t: State)
    requires id in s.info
  {
    var a := s.info[id].service;
    a in t.ids && t.ids[a] in t.info && SameRecord(s.info[id], t.info[t.ids[a]])
  }

  ghost predicate SameReach(env: Env, other: Env) {
    forall ip :: Routable(env, ip) == Routable(other, ip)
  }

  lemma {:induction false} DistinctRecords(s: State, ids: seq<int>)
    requires MapsOk(s) && Distinct(ids) && forall i :: 0 <= i < |ids| ==> ids[i] in s.info
    ensures DifferentAddresses(Records(s.info, ids))
  {
  }

  lemma {:induction false} ReachableRecords(env: Env, other: Env, s: State, ids: seq<int>)
    requires AddressesOk(env, s) && TimesOk(s) && SameReach(env, other) && forall i :: 0 <= i < |ids| ==> ids[i] in s.info
    ensures var rs := Records(s.info, ids);
      forall i :: 0 <= i < |rs| ==>
        && Routable(other, rs[i].service.ip) && rs[i].lastSuccess >= 0
        && (s.info[ids[i]].inTried ==> rs[i].lastSuccess > 0)
  {
    hide Routable;
    var rs := Records(s.info, ids);
    forall i | 0 <= i < |rs|
      ensures Routable(other, rs[i].service.ip) && rs[i].lastSuccess >= 0 && (s.info[ids[i]].inTried ==> rs[i].lastSuccess > 0)
    {
      var id := ids[i];
      assert id in s.info && Routable(env, s.info[id].service.ip);
    }
  }

  lemma {:induction false} SavedReadable(env: Env, s: State, order: seq<int>, index: map<int, int>)
    requires Inv(env, s, {}, {}) && Lists(s.info, order)
    ensures Readable(Save(env, s, order, index))
  {
    hide MapsOk, RandomOk, NewOk, TriedOk, CountsOk, LiveOk, AddressesOk, Pick, BucketIndexes;
    PickOk(s.info, order, false);
    PickOk(s.info, order, true);
    NewsFit(env, s, Pick(s.info, order, false));
    TriedsFit(env, s, Pick(s.info, order, true));
  }

  lemma {:induction false} SavedIds(env: Env, s: State, order: seq<int>, index: map<int, int>)
    requires Inv(env, s, {}, {}) && Lists(s.info, order) && IndexOf(Pick(s.info, order, false), index)
    ensures var news, trieds := Pick(s.info, order, false), Pick(s.info, order, true);
      && (forall i :: 0 <= i < |news| ==> var id := news[i]; id in s.info && !s.info[id].inTried)
      && (forall i :: 0 <= i < |trieds| ==> var id := trieds[i]; id in s.info && s.info[id].inTried)
      && (forall i :: 0 <= i < |news + trieds| ==> (news + trieds)[i] in s.info)
      && Distinct(news + trieds)
      && (forall id :: id in s.info ==> if s.info[id].inTried then id in trieds else id in news)
  {
    hide MapsOk, RandomOk, NewOk, TriedOk, CountsOk, AddressesOk, Pick;
    PicksListing(env, s, order, index);
  }

  /** What is saved is sane, also under another map of the network. */
  lemma {:induction false} SavedSane(env: Env, other: Env, s: State, order: seq<int>, index: map<int, int>)
    requires Inv(env, s, {}, {}) && TimesOk(s) && s.key != 0 && SameReach(env, other)
    requires Lists(s.info, order) && IndexOf(Pick(s.info, order, false), index)
    ensures Sane(other, Save(env, s, order, index))
  {
    hide MapsOk, RandomOk, NewOk, TriedOk, CountsOk, LiveOk, AddressesOk, TimesOk, SameReach, Routable, Pick, Buckets, DifferentAddresses,
         Distinct, Lists, IndexOf;
    var d := Save(env, s, order, index);
    var news, trieds := Pick(s.info, order, false), Pick(s.info, order, true);
    SavedIds(env, s, order, index);
    ReachableRecords(env, other, s, news);
    ReachableRecords(env, other, s, trieds);
    DistinctRecords(s, news + trieds);
    assert Records(s.info, news + trieds) == d.news + d.trieds;
  }

  // ---------- where the loaded entries come from ----------

  lemma {:induction false} PairIn(b: int, indexes: seq<int>, limit: int, x: int)
    requires x in indexes && 0 <= x < limit
    ensures (b, x) in Pairs(b, indexes, limit)
    decreases |indexes|
  {
    var front := indexes[..|indexes| - 1];
    if x in front {
      PairIn(b, front, limit, x);
    }
  }

  lemma {:induction false} AllPairsHave(buckets: seq<seq<int>>, limit: int, b: nat, x: int)
    requires b < |buckets| && (b, x) in Pairs(b, buckets[b], limit)
    ensures (b, x) in AllPairs(buckets, limit)
    decreases |buckets|
  {
    var n := |buckets| - 1;
    if b < n {
      AllPairsHave(buckets[..n], limit, b, x);
    }
  }

  lemma {:induction false} IndexIn(table: map<Slot, int>, index: map<int, int>, b: int, n: nat, p: nat)
    requires p < n && (b, p) in table && table[(b, p)] in index
    ensures index[table[(b, p)]] in BucketIndexes(table, index, b, n)
    decreases n
  {
    if p < n - 1 {
      IndexIn(table, index, b, n - 1, p);
    }
  }

  /** Every new entry of a saved state is named by a bucket of the file. */
  lemma {:induction false} NewNamed(env: Env, s: State, order: seq<int>, index: map<int, int>, id: int)
    requires Inv(env, s, {}, {}) && Lists(s.info, order) && IndexOf(Pick(s.info, order, false), index)
    requires id in s.info && !s.info[id].inTried
    ensures ToRecord(s.info[id]) in Named(Save(env, s, order, index))
  {
    hide MapsOk, RandomOk, TriedOk, CountsOk, AddressesOk, Pick, BucketIndexes, Pairs, AllPairs, Position, ToRecord;
    var d := Save(env, s, order, index);
    var news := Pick(s.info, order, false);
    SavedIds(env, s, order, index);
    var slot := SomeRef(env, s, id);
    var x := index[id];
    assert news[x] == id;
    IndexIn(s.newTable, index, slot.0, BUCKET_SIZE, slot.1);
    PairIn(slot.0, d.buckets[slot.0], |d.news|, x);
    AllPairsHave(d.buckets, |d.news|, slot.0, x);
    var pairs := AllPairs(d.buckets, |d.news|);
    var k :| 0 <= k < |pairs| && pairs[k] == (slot.0, x);
    AllPairsInRange(d.buckets, |d.news|);
    assert Named(d)[k] == d.news[x];
  }

  lemma {:induction false} SomeRef(env: Env, s: State, id: int) returns (slot: Slot)
    requires NewOk(env, s) && LiveOk(s, {}) && id in s.info && !s.info[id].inTried
    ensures slot in s.newTable && s.newTable[slot] == id && 0 <= slot.0 < NEW_BUCKET_COUNT && 0 <= slot.1 < BUCKET_SIZE
  {
    assert s.info[id].refCount == |Refs(s.newTable, id)|;
    assert Refs(s.newTable, id) != {};
    slot :| slot in Refs(s.newTable, id);
  }

  /** The record is that of an entry of the new (or the tried) table. */
  ghost predicate RecordOf(s: State, r: Record, tried: bool) {
    && r.service in s.ids && s.ids[r.service] in s.info
    && ToRecord(s.info[s.ids[r.service]]) == r && s.info[s.ids[r.service]].inTried == tried
  }

  ghost predicate RecordsOf(s: State, records: seq<Record>, tried: bool) {
    forall k :: 0 <= k < |records| ==> RecordOf(s, records[k], tried)
  }

  lemma {:induction false} SavedRecords(env: Env, s: State, order: seq<int>, index: map<int, int>)
    requires Inv(env, s, {}, {}) && Lists(s.info, order) && IndexOf(Pick(s.info, order, false), index)
    ensures var d := Save(env, s, order, index); RecordsOf(s, d.trieds, true) && RecordsOf(s, Named(d), false)
  {
    hide RandomOk, NewOk, TriedOk, CountsOk, LiveOk, AddressesOk, Pick, AllPairs, Lists, IndexOf, Distinct;
    var d := Save(env, s, order, index);
    SavedIds(env, s, order, index);
    AllPairsInRange(d.buckets, |d.news|);
  }

  /** What is saved of an entry is in the list that its table is loaded from. */
  lemma {:induction false} TriedSaved(env: Env, s: State, order: seq<int>, index: map<int, int>, id: int)
    requires Inv(env, s, {}, {}) && Lists(s.info, order) && IndexOf(Pick(s.info, order, false), index)
    requires id in s.info && s.info[id].inTried
    ensures ToRecord(s.info[id]) in Save(env, s, order, index).trieds
  {
    hide MapsOk, RandomOk, NewOk, TriedOk, CountsOk, LiveOk, AddressesOk, Pick, Lists, IndexOf, Distinct, ToRecord;
    SavedIds(env, s, order, index);
    var trieds := Pick(s.info, order, true);
    var k :| 0 <= k < |trieds| && trieds[k] == id;
    assert Save(env, s, order, index).trieds[k] == ToRecord(s.info[id]);
  }

  /** The holder of a slot that nobody else wants is the one who wants it. */
  lemma {:induction false} Uncontested(env: Env, s: State, id: int, records: seq<Record>, wants: seq<Slot>,
                                       table: map<Slot, int>, info: map<int, AddrInfo>)
    requires id in s.info && !Contested(env, s, id) && ToRecord(s.info[id]) in records
    requires RecordsOf(s, records, s.info[id].inTried)
    requires wants == if s.info[id].inTried then TriedWants(env, s.key, records) else NewWants(env, s.key, records)
    requires FirstServed(table, info, records, wants)
    ensures var slot := OwnSlot(env, s.key, s.info[id]);
      slot in table && table[slot] in info && ToRecord(info[table[slot]]) == ToRecord(s.info[id])
  {
    hide TriedSlot, NewSlot, First;
    var slot := OwnSlot(env, s.key, s.info[id]);
    var k :| 0 <= k < |records| && records[k] == ToRecord(s.info[id]);
    assert wants[k] == slot && slot in wants;
    var m := First(wants, slot);
    assert RecordOf(s, records[m], s.info[id].inTried);
    var x := s.ids[records[m].service];
    assert OwnSlot(env, s.key, s.info[x]) == wants[m];
  }

  lemma {:induction false} HolderCarries(env: Env, s: State, id: int, t: State, table: map<Slot, int>, slot: Slot)
    requires Inv(env, t, {}, {}) && id in s.info && table == if s.info[id].inTried then t.triedTable else t.newTable
    requires slot in table && table[slot] in t.info && ToRecord(t.info[table[slot]]) == ToRecord(s.info[id])
    ensures Carried(s, id, t)
  {
    hide RandomOk, CountsOk, LiveOk, AddressesOk, TriedSlot, Position;
  }

  /** An entry of a loaded state is in one of its tables. */
  lemma {:induction false} LoadedFrom(env: Env, s: State, t: State, trieds: seq<Record>, news: seq<Record>, y: int)
    requires Inv(env, t, {}, {}) && y in t.info && RecordsOf(s, trieds, true) && RecordsOf(s, news, false)
    requires FirstServed(t.triedTable, t.info, trieds, TriedWants(env, t.key, trieds))
    requires FirstServed(t.newTable, t.info, news, NewWants(env, t.key, news))
    ensures Carried(t, y, s)
  {
    hide MapsOk, RandomOk, CountsOk, AddressesOk, TriedSlot, NewSlot, Position, First;
    if t.info[y].inTried {
      var slot := TriedSlot(env, t.key, t.info[y].service);
      assert slot in t.triedTable && t.triedTable[slot] == y;
      assert RecordOf(s, trieds[First(TriedWants(env, t.key, trieds), slot)], true);
    } else {
      var slot := SomeRef(env, t, y);
      assert RecordOf(s, news[First(NewWants(env, t.key, news), slot)], false);
    }
  }

  /** A saved state loads under any other map of the network that routes the same addresses. Nothing is loaded that was
      not saved, and an entry is lost only if another one of its table gets the same slot under the new map. */
  lemma {:induction false} OtherMapLoads(env: Env, other: Env, s: State, order: seq<int>, index: map<int, int>, pruneOrder: seq<int>)
    requires Consistent(env, s) && TimesOk(s) && s.key != 0 && SameReach(env, other) && other.asmapChecksum != env.asmapChecksum
    requires Lists(s.info, order) && IndexOf(Pick(s.info, order, false), index)
    requires forall id :: 0 <= id < |Pick(s.info, order, false)| ==> id in pruneOrder
    ensures var r := Load(other, Save(env, s, order, index), pruneOrder);
      && r.Loaded? && Consistent(other, r.s)
      && (forall y :: y in r.s.info ==> Carried(r.s, y, s))
      && (forall id :: id in s.info && !Contested(other, s, id) ==> Carried(s, id, r.s))
  {
    hide Inv, Pick, Lists, IndexOf, Named, SameReach, FirstServed, TimesOk, CollisionsOk, RecordsOf, Carried, Contested, Readable, Sane,
         Load, OwnSlot;
    var d := Save(env, s, order, index);
    SavedReadable(env, s, order, index);
    SavedSane(env, other, s, order, index);
    SavedRecords(env, s, order, index);
    SaneLoads(other, d, pruneOrder);
    var t := Load(other, d, pruneOrder).s;
    forall y | y in t.info ensures Carried(t, y, s) {
      LoadedFrom(other, s, t, d.trieds, Named(d), y);
    }
    forall id | id in s.info && !Contested(other, s, id) ensures Carried(s, id, t) {
      var slot := OwnSlot(other, s.key, s.info[id]);
      if s.info[id].inTried {
        TriedSaved(env, s, order, index, id);
        Uncontested(other, s, id, d.trieds, TriedWants(other, s.key, d.trieds), t.triedTable, t.info);
        HolderCarries(other, s, id, t, t.triedTable, slot);
      } else {
        NewNamed(env, s, order, index, id);
        Uncontested(other, s, id, Named(d), NewWants(other, s.key, Named(d)), t.newTable, t.info);
        HolderCarries(other, s, id, t, t.newTable, slot);
      }
    }
  }
}

/** How far one part of the network can reach: the buckets open to a group of addresses or of sources, and how
    failures are counted. */
module AddrManLimits {
  import opened Options
  import opened AddrManState
  import opened AddrManInvariant
  import opened AddrManOps
  import opened AddrManRun
  import opened AddrManEffects
  import opened AddrManAdd

  // ---------- sizes ----------

  function Image(f: int -> int, n: nat): set<int> {
    set k | 0 <= k < n :: f(k)
  }

  lemma {:induction false} ImageSize(f: int -> int, n: nat)
    ensures |Image(f, n)| <= n
  {
    if n > 0 {
      ImageSize(f, n - 1);
      assert Image(f, n) == Image(f, n - 1) + {f(n - 1)};
    }
  }

  lemma {:induction false} InImage(f: int -> int, n: nat, k: int)
    requires 0 <= k < n
    ensures f(k) in Image(f, n)
  {
  }

  /** All positions of some buckets. */
  function SlotsOf(buckets: set<int>): set<Slot> {
    set b, p | b in buckets && 0 <= p < BUCKET_SIZE :: (b, p)
  }

  function Positions(b: int, n: nat): set<Slot> {
    set p | 0 <= p < n :: (b, p)
  }

  lemma {:induction false} PositionsSize(b: int, n: nat)
    ensures |Positions(b, n)| == n
  {
    if n > 0 {
      PositionsSize(b, n - 1);
      assert Positions(b, n) == Positions(b, n - 1) + {(b, n - 1)};
    }
  }

  lemma {:induction false} SlotsSize(buckets: set<int>)
    ensures |SlotsOf(buckets)| == BUCKET_SIZE * |buckets|
    decreases |buckets|
  {
    if buckets == {} {
      assert SlotsOf(buckets) == {};
    } else {
      if !exists b :: b in buckets {
        assert false;
      }
      var b :| b in buckets;
      var rest := buckets - {b};
      SlotsSize(rest);
      PositionsSize(b, BUCKET_SIZE);
      assert SlotsOf(buckets) == SlotsOf(rest) + Positions(b, BUCKET_SIZE);
      assert SlotsOf(rest) !! Positions(b, BUCKET_SIZE);
    }
  }

  /** Ids that hold different slots are no more than the slots. */
  lemma {:induction false} HoldersSize(table: map<Slot, int>, ids: set<int>, slots: set<Slot>)
    requires forall id :: id in ids ==> exists slot :: slot in slots && slot in table && table[slot] == id
    ensures |ids| <= |slots|
    decreases |ids|
  {
    if ids != {} {
      if !exists x :: x in ids {
        assert false;
      }
      var id :| id in ids;
      var slot :| slot in slots && slot in table && table[slot] == id;
      forall x | x in ids - {id} ensures exists p :: p in slots - {slot} && p in table && table[p] == x {
        var p :| p in slots && p in table && table[p] == x;
        assert p in slots - {slot};
      }
      HoldersSize(table, ids - {id}, slots - {slot});
    }
  }

  // ---------- tried buckets of a group of addresses ----------

  function TriedChoice(env: Env, key: Key, group: nat): int -> int {
    k => env.hash(TriedGroup(key, group, k)) % TRIED_BUCKET_COUNT
  }

  function TriedBuckets(env: Env, key: Key, group: nat): set<int> {
    Image(TriedChoice(env, key, group), 8)
  }

  /** A group of addresses has eight tried buckets at most, whatever the hash. */
  lemma {:induction false} TriedSpread(env: Env, key: Key, a: Service)
    ensures TriedBucket(env, key, a) in TriedBuckets(env, key, env.group(a.ip))
    ensures |TriedBuckets(env, key, env.group(a.ip))| <= 8
  {
    ImageSize(TriedChoice(env, key, env.group(a.ip)), 8);
    InImage(TriedChoice(env, key, env.group(a.ip)), 8, env.hash(TriedService(key, a)) % 8);
  }

  ghost function TriedOfGroup(env: Env, s: State, group: nat): set<int> {
    set id | id in s.info && s.info[id].inTried && env.group(s.info[id].service.ip) == group
  }

  /** So in every consistent state no group has more than 512 of the 16384 places of the tried table. */
  lemma {:induction false} TriedShare(env: Env, s: State, group: nat)
    requires Consistent(env, s)
    ensures |TriedOfGroup(env, s, group)| <= 512
  {
    hide NewOk, CountsOk, MapsOk, RandomOk, AddressesOk, LiveOk, Position, TriedBucket, TriedBuckets;
    var ids := TriedOfGroup(env, s, group);
    var buckets := TriedBuckets(env, s.key, group);
    if ids != {} {
      forall id | id in ids ensures exists slot :: slot in SlotsOf(buckets) && slot in s.triedTable && s.triedTable[slot] == id {
        var slot := TriedSlot(env, s.key, s.info[id].service);
        TriedSpread(env, s.key, s.info[id].service);
        assert slot in SlotsOf(buckets) && slot in s.triedTable && s.triedTable[slot] == id;
      }
      HoldersSize(s.triedTable, ids, SlotsOf(buckets));
      SlotsSize(buckets);
      if !exists x :: x in ids {
        assert false;
      }
      var id :| id in ids;
      TriedSpread(env, s.key, s.info[id].service);
    }
  }

  // ---------- new buckets of a group of sources ----------

  function NewChoice(env: Env, key: Key, sourceGroup: nat): int -> int {
    k => env.hash(NewSource(key, sourceGroup, k)) % NEW_BUCKET_COUNT
  }

  function NewBuckets(env: Env, key: Key, sourceGroup: nat): set<int> {
    Image(NewChoice(env, key, sourceGroup), 64)
  }

  /** A group of sources has 64 new buckets at most, and within them the group of the address alone decides. */
  lemma {:induction false} NewSpread(env: Env, key: Key, a: Service, source: nat, b: Service, other: nat)
    ensures NewBucket(env, key, a, source) in NewBuckets(env, key, env.group(source))
    ensures |NewBuckets(env, key, env.group(source))| <= 64
    ensures env.group(a.ip) == env.group(b.ip) && env.group(source) == env.group(other) ==>
      NewBucket(env, key, a, source) == NewBucket(env, key, b, other)
  {
    ImageSize(NewChoice(env, key, env.group(source)), 64);
    InImage(NewChoice(env, key, env.group(source)), 64, env.hash(NewGroups(key, env.group(a.ip), env.group(source))) % 64);
  }

  /** So whatever a source announces, it changes no new slot outside the 4096 of its group. */
  lemma {:induction false} SourceShare(env: Env, s: State, offers: seq<Offer>, source: nat, penalty: int, slot: Slot)
    requires Inv(env, s, {}, {}) && slot !in SlotsOf(NewBuckets(env, s.key, env.group(source)))
    ensures |SlotsOf(NewBuckets(env, s.key, env.group(source)))| <= 4096
    ensures var t := AddAll(env, s, offers, source, penalty);
      (slot in t.newTable <==> slot in s.newTable) && (slot in s.newTable ==> t.newTable[slot] == s.newTable[slot])
    decreases |offers|
  {
    hide Inv, AddSingle, NewBuckets, NewBucket, Position, TimesOk;
    SlotsSize(NewBuckets(env, s.key, env.group(source)));
    NewSpread(env, s.key, Service(0, 0), source, Service(0, 0), source);
    if offers != [] {
      AddSingleKeeps(env, s, offers[0], source, penalty);
      NewSpread(env, s.key, offers[0].addr.service, source, offers[0].addr.service, source);
      AddSingleSlot(env, s, offers[0], source, penalty, slot);
      SourceShare(env, AddSingle(env, s, offers[0], source, penalty).0, offers[1..], source, penalty, slot);
    }
  }

  lemma {:induction false} AddSingleSlot(env: Env, s: State, o: Offer, source: nat, penalty: int, slot: Slot)
    requires Inv(env, s, {}, {}) && slot != NewSlot(env, s.key, o.addr.service, source)
    ensures var t := AddSingle(env, s, o, source, penalty).0;
      (slot in t.newTable <==> slot in s.newTable) && (slot in s.newTable ==> t.newTable[slot] == s.newTable[slot])
  {
    hide NewOk, TriedOk, CountsOk, MapsOk, RandomOk, AddressesOk, LiveOk, StoreNew, AddKnown, Announce, NewSlot;
    if Routable(env, o.addr.service.ip) {
      var p := Penalty(o, source, penalty);
      if Find(s, o.addr.service).Some? {
        var id := Find(s, o.addr.service).value;
        AddKnownEffect(env, s, o, id, source, p, id);
      } else {
        AnnounceKeeps(env, s, o, source, p);
        Announced(env, s, o, source, p);
        StoreNewEffect(env, Announce(env, s, o, source, p), s.idCount, source, o.terribleNow, {s.idCount}, s.idCount);
      }
    }
  }

  // ---------- quality ----------

  /** A hash of preimages under which an address has a given slot in either table. */
  function HashTo(tried: Slot, new': Slot): Preimage -> nat
    requires tried.0 >= 0 && tried.1 >= 0 && new'.0 >= 0 && new'.1 >= 0
  {
    (x: Preimage) =>
      match x {
        case TriedService(_, _) => 0
        case TriedGroup(_, _, _) => tried.0
        case NewGroups(_, _, _) => 0
        case NewSource(_, _, _) => new'.0
        case Place(_, inNew, _, _) => if inNew then new'.1 else tried.1
      }
  }

  /** No slot is out of reach: every address can get every slot of both tables. */
  lemma {:induction false} EverySlotReached(env: Env, key: Key, a: Service, source: nat, tried: Slot, new': Slot)
    requires 0 <= tried.0 < 256 && 0 <= tried.1 < 64 && 0 <= new'.0 < 1024 && 0 <= new'.1 < 64
    ensures var e := env.(hash := HashTo(tried, new')); TriedSlot(e, key, a) == tried && NewSlot(e, key, a, source) == new'
  {
  }

  /** An entry is kept if it was tried in the last minute; otherwise it must have been seen in the last thirty days
      and not in the future, and must not have failed three times without a success, or ten times since a success more
      than a week ago. */
  lemma {:induction false} TerribleExact(i: AddrInfo, now: int)
    ensures !IsTerrible(i, now) <==>
      || now <= i.lastTry + 60
      || (&& now - 2592000 <= i.time <= now + 600
          && (i.attempts < 3 || i.lastSuccess != 0)
          && (i.attempts < 10 || now <= i.lastSuccess + 604800))
  {
  }

  /** An attempt is noted with the address alone, and counts as a failure only if it is the first since a good
      connection to anybody. */
  lemma {:induction false} AttemptNoted(s: State, a: Service, countFailure: bool, time: int, id: int)
    requires Find(s, a) == Some(id)
    ensures var t := Attempt(s, a, countFailure, time);
      && t == s.(info := t.info) && t.info.Keys == s.info.Keys && Find(t, a) == Some(id)
      && (forall x :: x in s.info && x != id ==> t.info[x] == s.info[x])
      && var i, j, counted := s.info[id], t.info[id], countFailure && s.info[id].lastCountAttempt < s.lastGood;
        && j.lastTry == time && j.attempts == i.attempts + (if counted then 1 else 0)
        && j.lastCountAttempt == (if counted then time else i.lastCountAttempt)
        && SamePlace(i, j) && j.lastSuccess == i.lastSuccess && j.time == i.time && j.services == i.services && j.source == i.source
  {
  }

  /** So any number of failed attempts in a row, without a good connection between them, count as one. */
  lemma {:induction false} CountedOnce(s: State, a: Service, times: seq<int>, id: int)
    requires Find(s, a) == Some(id) && forall k :: 0 <= k < |times| ==> times[k] >= s.lastGood
    ensures var t := Attempts(s, a, times);
      && Find(t, a) == Some(id) && t.lastGood == s.lastGood
      && t.info[id].attempts == s.info[id].attempts + (if times != [] && s.info[id].lastCountAttempt < s.lastGood then 1 else 0)
    decreases |times|
  {
    hide Attempt;
    if times != [] {
      AttemptNoted(s, a, true, times[0], id);
      CountedOnce(Attempt(s, a, true, times[0]), a, times[1..], id);
    }
  }

  function Attempts(s: State, a: Service, times: seq<int>): State
    decreases |times|
  {
    if times == [] then s else Attempts(Attempt(s, a, true, times[0]), a, times[1..])
  }

  /** A connection that ends moves the recorded time forward, if by more than twenty minutes, and never back. */
  lemma {:induction false} ConnectedNoted(s: State, a: Service, time: int, id: int)
    requires Find(s, a) == Some(id)
    ensures var t := Connected(s, a, time);
      && t == s.(info := t.info) && t.info.Keys == s.info.Keys
      && (forall x :: x in s.info && x != id ==> t.info[x] == s.info[x])
      && t.info[id] == s.info[id].(time := t.info[id].time)
      && t.info[id].time >= s.info[id].time && time - t.info[id].time <= 1200
      && (t.info[id].time == time || t.info[id].time == s.info[id].time)
  {
  }

  /** The services of an address are replaced, and nothing else. */
  lemma {:induction false} ServicesNoted(s: State, a: Service, services: set<nat>, id: int)
    requires Find(s, a) == Some(id)
    ensures var t := SetServices(s, a, services);
      && t == s.(info := t.info) && t.info.Keys == s.info.Keys
      && (forall x :: x in s.info && x != id ==> t.info[x] == s.info[x])
      && t.info[id].services == services && t.info[id].(services := s.info[id].services) == s.info[id]
  {
  }

  /** The number of addresses handed out: the largest that exceeds neither the number asked for nor the percentage,
      where given; all of them if neither is. */
  lemma {:induction false} LimitExact(size: nat, maxAddresses: nat, maxPct: nat, n: nat)
    ensures n <= Limit(size, maxAddresses, maxPct) <==>
      (maxAddresses == 0 || n <= maxAddresses) && (if maxPct == 0 then n <= size else 100 * n <= maxPct * size)
  {
  }

  /** Heard of in the last thirty days and not given up on. */
  ghost predicate Fit(env: Env, i: AddrInfo, network: Option<nat>, now: int) {
    && (network == None || network == Some(env.netClass(i.service.ip)))
    && (|| now <= i.lastTry + 60
        || (&& now - 2592000 <= i.time <= now + 600
            && (i.attempts < 3 || i.lastSuccess != 0)
            && (i.attempts < 10 || now <= i.lastSuccess + 604800)))
  }

  /** An answer of n distinct addresses is n of the fit ones, and n is no less than it may be. */
  lemma {:induction false} GetAddrAnswers(env: Env, s: State, maxAddresses: nat, maxPct: nat, network: Option<nat>, draws: nat -> nat, now: int)
    requires Inv(env, s, {}, {})
    ensures var ids := GetAddr(env, s, maxAddresses, maxPct, network, draws, now).1;
      && (forall i, j :: 0 <= i < j < |ids| ==> ids[i] != ids[j])
      && (forall id :: id in ids ==> id in s.info && Fit(env, s.info[id], network, now))
      && (maxAddresses == 0 || |ids| <= maxAddresses)
      && (maxPct == 0 || 100 * |ids| <= maxPct * |s.random|)
      && ((exists id :: id in s.info && Fit(env, s.info[id], network, now) && id !in ids) ==>
            || |ids| == maxAddresses
            || (maxPct == 0 && |ids| == |s.random|)
            || (maxPct != 0 && 100 * (|ids| + 1) > maxPct * |s.random|))
  {
    hide Inv, GetAddr, IsTerrible, Limit, Fit;
    GetAddrSelects(env, s, maxAddresses, maxPct, network, draws, now);
    forall i ensures Eligible(env, i, network, now) == Fit(env, i, network, now) {
      FitExact(env, i, network, now);
    }
    var n := |GetAddr(env, s, maxAddresses, maxPct, network, draws, now).1|;
    LimitExact(|s.random|, maxAddresses, maxPct, n);
    LimitExact(|s.random|, maxAddresses, maxPct, n + 1);
  }

  lemma {:induction false} FitExact(env: Env, i: AddrInfo, network: Option<nat>, now: int)
    ensures Eligible(env, i, network, now) == Fit(env, i, network, now)
  {
    hide IsTerrible;
    TerribleExact(i, now);
  }
}

/** The state of the address manager (src/addrman_impl.h) and its operations (src/addrman.cpp) as
    functions from state to state. The class that updates the state in place is in AddrManClass.dfy;
    what every operation keeps is proved in AddrManInvariant.dfy. */
module AddrManState {
  import opened Options

  const TRIED_BUCKETS_PER_GROUP := 8
  const NEW_BUCKETS_PER_SOURCE_GROUP := 64
  const NEW_BUCKETS_PER_ADDRESS := 8
  const TRIED_BUCKET_COUNT := 256
  const NEW_BUCKET_COUNT := 1024
  const BUCKET_SIZE := 64
  const HORIZON := 30 * 24 * 3600
  const RETRIES := 3
  const MAX_FAILURES := 10
  const MIN_FAIL := 7 * 24 * 3600
  const REPLACEMENT := 4 * 3600
  const TRIED_COLLISION_SIZE := 10
  const TEST_WINDOW := 40 * 60

  /** A 256-bit key; 0 is the null key. */
  type Key = nat
  /** A (bucket, position) pair. */
  type Slot = (int, int)

  /** A network address with a port. */
  datatype Service = Service(ip: nat, port: nat)

  /** An address as it arrives in a message; `services` is the set of service bits. */
  datatype Address = Address(service: Service, services: set<nat>, time: int)

  /** What the keyed hash is taken of. */
  datatype Preimage =
    | TriedService(key: Key, service: Service)
    | TriedGroup(key: Key, group: nat, spread: int)
    | NewGroups(key: Key, group: nat, sourceGroup: nat)
    | NewSource(key: Key, sourceGroup: nat, spread: int)
    | Place(key: Key, inNew: bool, bucket: int, service: Service)

  /** What lies outside the address manager: the keyed hash, the network group, network and class
      of an address, and the two halves of `IsRoutable`. */
  datatype Env = Env(
    hash: Preimage -> nat,
    group: nat -> nat,
    network: nat -> nat,
    netClass: nat -> nat,
    valid: nat -> bool,
    reserved: nat -> bool,
    asmapChecksum: nat)

  predicate Routable(env: Env, ip: nat) { env.valid(ip) && !env.reserved(ip) }

  datatype AddrInfo = AddrInfo(
    service: Service,
    services: set<nat>,
    time: int,
    source: nat,
    lastTry: int,
    lastCountAttempt: int,
    lastSuccess: int,
    attempts: int,
    refCount: int,
    inTried: bool,
    randomPos: int)

  datatype Count = Count(nNew: int, nTried: int)

  /** The fields of the address manager; a free slot of a table is an absent key. */
  datatype State = State(
    key: Key,
    idCount: int,
    info: map<int, AddrInfo>,
    ids: map<Service, int>,
    random: seq<int>,
    nTried: int,
    triedTable: map<Slot, int>,
    nNew: int,
    newTable: map<Slot, int>,
    lastGood: int,
    collisions: set<int>,
    counts: map<nat, Count>)

  function Empty(key: Key): State {
    State(key, 0, map[], map[], [], 0, map[], 0, map[], 1, {}, map[])
  }

  // ---------- where an entry belongs ----------

  function TriedBucket(env: Env, key: Key, a: Service): int {
    var hash1 := env.hash(TriedService(key, a));
    env.hash(TriedGroup(key, env.group(a.ip), hash1 % TRIED_BUCKETS_PER_GROUP)) % TRIED_BUCKET_COUNT
  }

  function NewBucket(env: Env, key: Key, a: Service, source: nat): int {
    var hash1 := env.hash(NewGroups(key, env.group(a.ip), env.group(source)));
    env.hash(NewSource(key, env.group(source), hash1 % NEW_BUCKETS_PER_SOURCE_GROUP)) % NEW_BUCKET_COUNT
  }

  function Position(env: Env, key: Key, inNew: bool, bucket: int, a: Service): int {
    env.hash(Place(key, inNew, bucket, a)) % BUCKET_SIZE
  }

  function TriedSlot(env: Env, key: Key, a: Service): (slot: Slot)
    ensures 0 <= slot.0 < TRIED_BUCKET_COUNT && 0 <= slot.1 < BUCKET_SIZE
  {
    var b := TriedBucket(env, key, a);
    (b, Position(env, key, false, b, a))
  }

  function NewSlot(env: Env, key: Key, a: Service, source: nat): (slot: Slot)
    ensures 0 <= slot.0 < NEW_BUCKET_COUNT && 0 <= slot.1 < BUCKET_SIZE
  {
    var b := NewBucket(env, key, a, source);
    (b, Position(env, key, true, b, a))
  }

  predicate IsTerrible(i: AddrInfo, now: int) {
    now - i.lastTry > 60 &&
    (|| i.time > now + 600
     || now - i.time > HORIZON
     || (i.lastSuccess == 0 && i.attempts >= RETRIES)
     || (now - i.lastSuccess > MIN_FAIL && i.attempts >= MAX_FAILURES))
  }

  // ---------- the invariant ----------

  function Refs(table: map<Slot, int>, id: int): set<Slot> {
    set slot | slot in table && table[slot] == id
  }

  /** Addresses and ids are in bijection, and ids are below the next id to hand out. */
  ghost predicate MapsOk(s: State) {
    && s.idCount >= 0
    && (forall id :: id in s.info ==>
          0 <= id < s.idCount && s.info[id].service in s.ids && s.ids[s.info[id].service] == id)
    && (forall a :: a in s.ids ==> var id := s.ids[a]; id in s.info && s.info[id].service == a)
  }

  /** The random order lists every id exactly once, at the place its entry records. */
  ghost predicate RandomOk(s: State) {
    && (forall id :: id in s.info ==>
          0 <= s.info[id].randomPos < |s.random| && s.random[s.info[id].randomPos] == id)
    && (forall i :: 0 <= i < |s.random| ==> var id := s.random[i]; id in s.info && s.info[id].randomPos == i)
  }

  /** Every new slot holds a live untried entry at the position its hash gives, and the reference
      count of an entry is the number of new slots that hold it. */
  ghost predicate NewOk(env: Env, s: State) {
    && (forall slot :: slot in s.newTable ==>
          var id := s.newTable[slot];
          && 0 <= slot.0 < NEW_BUCKET_COUNT
          && id in s.info
          && !s.info[id].inTried
          && slot.1 == Position(env, s.key, true, slot.0, s.info[id].service))
    && (forall id :: id in s.info ==>
          s.info[id].refCount == |Refs(s.newTable, id)| <= NEW_BUCKETS_PER_ADDRESS)
  }

  /** The tried table and the tried flags say the same thing, each entry in the slot of its hash. */
  ghost predicate TriedOk(env: Env, s: State) {
    && (forall slot :: slot in s.triedTable ==>
          var id := s.triedTable[slot];
          && id in s.info
          && s.info[id].inTried
          && slot == TriedSlot(env, s.key, s.info[id].service))
    && (forall id :: id in s.info && s.info[id].inTried ==>
          var slot := TriedSlot(env, s.key, s.info[id].service);
          slot in s.triedTable && s.triedTable[slot] == id)
  }

  predicate Counted(env: Env, i: AddrInfo, tried: bool, net: Option<nat>) {
    i.inTried == tried && (net.None? || env.network(i.service.ip) == net.value)
  }

  /** The entries on one side (new or tried), of one network or of all; those in `limbo` are on
      neither side. */
  function Members(env: Env, info: map<int, AddrInfo>, limbo: set<int>, tried: bool, net: Option<nat>): set<int> {
    set id | id in info && id !in limbo && Counted(env, info[id], tried, net)
  }

  function CountOf(s: State, net: nat): Count {
    if net in s.counts then s.counts[net] else Count(0, 0)
  }

  ghost predicate CountsOk(env: Env, s: State, limbo: set<int>) {
    && s.nNew == |Members(env, s.info, limbo, false, None)|
    && s.nTried == |Members(env, s.info, limbo, true, None)|
    && (forall net: nat ::
          && CountOf(s, net).nNew == |Members(env, s.info, limbo, false, Some(net))|
          && CountOf(s, net).nTried == |Members(env, s.info, limbo, true, Some(net))|)
  }

  /** No untried entry outside `idle` is without a new slot; the idle ones have none. */
  ghost predicate LiveOk(s: State, idle: set<int>) {
    && (forall id :: id in s.info && !s.info[id].inTried && id !in idle ==> s.info[id].refCount > 0)
    && (forall id :: id in idle ==> id in s.info && !s.info[id].inTried && s.info[id].refCount == 0)
  }

  /** An id waiting in `collisions` is dead, or the tried slot it wants is occupied. */
  ghost predicate CollisionsOk(env: Env, s: State) {
    forall id :: id in s.collisions ==>
      id < s.idCount && (id in s.info ==> TriedSlot(env, s.key, s.info[id].service) in s.triedTable)
  }

  ghost predicate AddressesOk(env: Env, s: State) {
    forall id :: id in s.info ==> Routable(env, s.info[id].service.ip)
  }

  /** The invariant in the middle of an operation: `limbo` entries are in neither table and not
      counted, `idle` entries are in neither table. */
  ghost predicate Inv(env: Env, s: State, limbo: set<int>, idle: set<int>) {
    && MapsOk(s)
    && RandomOk(s)
    && NewOk(env, s)
    && TriedOk(env, s)
    && CountsOk(env, s, limbo)
    && LiveOk(s, idle)
    && AddressesOk(env, s)
    && limbo <= idle
  }

  /** The invariant between operations. */
  ghost predicate Consistent(env: Env, s: State) {
    Inv(env, s, {}, {}) && CollisionsOk(env, s)
  }

  /** The clauses of the consistency check about times. */
  ghost predicate TimesOk(s: State) {
    forall id :: id in s.info ==>
      && s.info[id].lastTry >= 0
      && s.info[id].lastSuccess >= 0
      && (s.info[id].inTried ==> s.info[id].lastSuccess != 0)
  }

  // ---------- operations on the state ----------

  function Find(s: State, a: Service): Option<int> {
    if a in s.ids && s.ids[a] in s.info then Some(s.ids[a]) else None
  }

  function Adjust(s: State, net: nat, dNew: int, dTried: int): map<nat, Count> {
    var c := CountOf(s, net);
    s.counts[net := Count(c.nNew + dNew, c.nTried + dTried)]
  }

  lemma {:induction false} AdjustSame(s: State, t: State, network: nat, dNew: int, dTried: int)
    requires s.counts == t.counts
    ensures Adjust(s, network, dNew, dTried) == Adjust(t, network, dNew, dTried)
  {
  }

  function Create(env: Env, s: State, a: Address, source: nat): State {
    var i := AddrInfo(a.service, a.services, a.time, source, 0, 0, 0, 0, 0, false, |s.random|);
    s.(idCount := s.idCount + 1,
       info := s.info[s.idCount := i],
       ids := s.ids[a.service := s.idCount],
       random := s.random + [s.idCount],
       nNew := s.nNew + 1,
       counts := Adjust(s, env.network(a.service.ip), 1, 0))
  }

  function SwapRandom(s: State, i: int, j: int): State
    requires RandomOk(s)
    requires 0 <= i < |s.random| && 0 <= j < |s.random|
  {
    var x, y := s.random[i], s.random[j];
    if i == j then s else
      s.(info := s.info[x := s.info[x].(randomPos := j)][y := s.info[y].(randomPos := i)],
         random := s.random[i := y][j := x])
  }

  /** Forgets the entry that is last in the random order. */
  function DropLast(env: Env, s: State, id: int): State
    requires id in s.info && |s.random| > 0
  {
    var i := s.info[id];
    s.(info := s.info - {id},
       ids := s.ids - {i.service},
       random := s.random[..|s.random| - 1],
       nNew := s.nNew - 1,
       counts := Adjust(s, env.network(i.service.ip), -1, 0))
  }

  function Delete(env: Env, s: State, id: int): State
    requires RandomOk(s)
    requires id in s.info && !s.info[id].inTried && s.info[id].refCount == 0
  {
    DropLast(env, SwapRandom(s, s.info[id].randomPos, |s.random| - 1), id)
  }

  function DropRef(s: State, slot: Slot): State
    requires slot in s.newTable && s.newTable[slot] in s.info
  {
    var id := s.newTable[slot];
    s.(info := s.info[id := s.info[id].(refCount := s.info[id].refCount - 1)],
       newTable := s.newTable - {slot})
  }

  /** Empties one new slot; the entry dies with its last reference. */
  function ClearNew(env: Env, s: State, slot: Slot): State
    requires RandomOk(s) && NewOk(env, s)
  {
    if slot !in s.newTable then s else
      var id := s.newTable[slot];
      var t := DropRef(s, slot);
      if t.info[id].refCount == 0 then Delete(env, t, id) else t
  }

  /** Takes an entry out of every new slot. */
  function StripNew(env: Env, s: State, id: int): State
    requires id in s.info
  {
    var i := s.info[id];
    s.(info := s.info[id := i.(refCount := 0)],
       newTable := map slot | slot in s.newTable && s.newTable[slot] != id :: s.newTable[slot],
       nNew := s.nNew - 1,
       counts := Adjust(s, env.network(i.service.ip), -1, 0))
  }

  /** Takes the occupant of a tried slot out of the tried table. */
  function LeaveTried(env: Env, s: State, slot: Slot): State
    requires slot in s.triedTable && s.triedTable[slot] in s.info
  {
    var id := s.triedTable[slot];
    var i := s.info[id];
    s.(info := s.info[id := i.(inTried := false)],
       triedTable := s.triedTable - {slot},
       nTried := s.nTried - 1,
       counts := Adjust(s, env.network(i.service.ip), 0, -1))
  }

  /** Puts an entry back into the free new slot of its own source. */
  function ReenterNew(env: Env, s: State, id: int): State
    requires id in s.info
  {
    var i := s.info[id];
    s.(info := s.info[id := i.(refCount := 1)],
       newTable := s.newTable[NewSlot(env, s.key, i.service, i.source) := id],
       nNew := s.nNew + 1,
       counts := Adjust(s, env.network(i.service.ip), 1, 0))
  }

  function EnterTried(env: Env, s: State, id: int): State
    requires id in s.info
  {
    var i := s.info[id];
    s.(info := s.info[id := i.(inTried := true)],
       triedTable := s.triedTable[TriedSlot(env, s.key, i.service) := id],
       nTried := s.nTried + 1,
       counts := Adjust(s, env.network(i.service.ip), 0, 1))
  }
}

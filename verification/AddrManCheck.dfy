/** The consistency check: exactly what a zero verdict means, and that every reachable state gets one. */
module AddrManCheck {
  import opened Options
  import opened AddrManState
  import opened AddrManInvariant
  import opened AddrManOps
  import opened AddrManRun
  import opened AddrManClass

  // ---------- what the check demands ----------

  ghost predicate EntryChecked(s: State, id: int)
    requires id in s.info
  {
    var i := s.info[id];
    && (if i.inTried then i.lastSuccess != 0 && i.refCount == 0 else 1 <= i.refCount <= NEW_BUCKETS_PER_ADDRESS)
    && i.service in s.ids && s.ids[i.service] == id
    && 0 <= i.randomPos < |s.random| && s.random[i.randomPos] == id
    && i.lastTry >= 0 && i.lastSuccess >= 0
  }

  /** The networks that have an entry. */
  function Networks(env: Env, info: map<int, AddrInfo>): set<nat> {
    set id | id in info :: env.network(info[id].service.ip)
  }

  /** The counters of the networks that have counters; a network without any is not looked at. */
  ghost predicate CountsChecked(env: Env, s: State) {
    && |s.counts| >= |Networks(env, s.info)|
    && forall net :: net in s.counts ==>
         && s.counts[net].nNew == |Members(env, s.info, {}, false, Some(net))|
         && s.counts[net].nTried == |Members(env, s.info, {}, true, Some(net))|
  }

  ghost predicate Checked(env: Env, s: State) {
    && |s.random| == s.nTried + s.nNew
    && (forall id :: id in s.info ==> EntryChecked(s, id))
    && s.nTried == |Members(env, s.info, {}, true, None)|
    && s.nNew == |Members(env, s.info, {}, false, None)|
    && TriedOk(env, s)
    && NewOk(env, s)
    && s.key != 0
    && CountsChecked(env, s)
  }

  // ---------- the scan over the entries ----------

  /** What the scan over part of the entries collects. */
  datatype Tally = Tally(tried: set<int>, untried: map<int, int>, counts: map<nat, Count>)

  function TallyCount(t: Tally, net: nat): Count {
    if net in t.counts then t.counts[net] else Count(0, 0)
  }

  ghost predicate TallyOk(env: Env, done: map<int, AddrInfo>, t: Tally) {
    && t.tried == Members(env, done, {}, true, None)
    && t.untried.Keys == Members(env, done, {}, false, None)
    && (forall id :: id in t.untried ==> id in done && t.untried[id] == done[id].refCount)
    && t.counts.Keys == Networks(env, done)
    && (forall net: nat ::
          && TallyCount(t, net).nNew == |Members(env, done, {}, false, Some(net))|
          && TallyCount(t, net).nTried == |Members(env, done, {}, true, Some(net))|)
  }

  function TallyAdd(env: Env, t: Tally, id: int, i: AddrInfo): Tally {
    var net := env.network(i.service.ip);
    var c := TallyCount(t, net);
    if i.inTried then Tally(t.tried + {id}, t.untried, t.counts[net := Count(c.nNew, c.nTried + 1)])
    else Tally(t.tried, t.untried[id := i.refCount], t.counts[net := Count(c.nNew + 1, c.nTried)])
  }

  lemma {:induction false} NetworksAdd(env: Env, done: map<int, AddrInfo>, id: int, i: AddrInfo)
    requires id !in done
    ensures Networks(env, done[id := i]) == Networks(env, done) + {env.network(i.service.ip)}
  {
    var more := done[id := i];
    forall net: nat ensures net in Networks(env, more) <==> net in Networks(env, done) + {env.network(i.service.ip)} {
      if net in Networks(env, done) {
        var x :| x in done && env.network(done[x].service.ip) == net;
        assert x in more && more[x] == done[x];
      }
      if net == env.network(i.service.ip) {
        assert id in more && more[id] == i;
      }
      if net in Networks(env, more) {
        var x :| x in more && env.network(more[x].service.ip) == net;
        assert x != id ==> x in done && more[x] == done[x];
      }
    }
  }

  lemma {:induction false} TallyAddSets(env: Env, done: map<int, AddrInfo>, t: Tally, id: int, i: AddrInfo)
    requires TallyOk(env, done, t) && id !in done
    ensures var t' := TallyAdd(env, t, id, i); var more := done[id := i];
      && t'.tried == Members(env, more, {}, true, None)
      && t'.untried.Keys == Members(env, more, {}, false, None)
      && (forall x :: x in t'.untried ==> x in more && t'.untried[x] == more[x].refCount)
  {
    var more := done[id := i];
    var t' := TallyAdd(env, t, id, i);
    forall x ensures x in t'.tried <==> x in Members(env, more, {}, true, None) {
      assert x in t.tried <==> x in Members(env, done, {}, true, None);
    }
    forall x ensures x in t'.untried.Keys <==> x in Members(env, more, {}, false, None) {
      assert x in t.untried.Keys <==> x in Members(env, done, {}, false, None);
    }
  }

  lemma {:induction false} TallyAddCounts(env: Env, done: map<int, AddrInfo>, t: Tally, id: int, i: AddrInfo)
    requires TallyOk(env, done, t) && id !in done
    ensures var t' := TallyAdd(env, t, id, i); var more := done[id := i];
      && t'.counts.Keys == Networks(env, more)
      && (forall net: nat ::
            && TallyCount(t', net).nNew == |Members(env, more, {}, false, Some(net))|
            && TallyCount(t', net).nTried == |Members(env, more, {}, true, Some(net))|)
  {
    var more := done[id := i];
    var t' := TallyAdd(env, t, id, i);
    NetworksAdd(env, done, id, i);
    forall net: nat
      ensures TallyCount(t', net).nNew == |Members(env, more, {}, false, Some(net))|
      ensures TallyCount(t', net).nTried == |Members(env, more, {}, true, Some(net))|
    {
      MemberFlip(env, done, {}, more, {}, id, i.service, false, Some(net));
      MemberFlip(env, done, {}, more, {}, id, i.service, true, Some(net));
    }
  }

  method CheckEntries(a: AddrMan) returns (err: int, t: Tally)
    ensures err == 0 <==> forall id :: id in a.mapInfo ==> EntryChecked(a.View(), id)
    ensures err == 0 ==> TallyOk(a.env, a.mapInfo, t)
  {
    hide TallyOk, TallyAdd, Table;
    ghost var s := a.View();
    ghost var done: map<int, AddrInfo> := map[];
    var rest := a.mapInfo.Keys;
    t := Tally({}, map[], map[]);
    TallyEmpty(a.env);
    while rest != {}
      invariant rest <= a.mapInfo.Keys
      invariant forall id :: id in done <==> id in a.mapInfo && id !in rest
      invariant forall id :: id in done ==> done[id] == a.mapInfo[id] && EntryChecked(s, id)
      invariant TallyOk(a.env, done, t)
      decreases |rest|
    {
      if !exists id :: id in rest {
        assert false;
      }
      var id :| id in rest;
      var i := a.mapInfo[id];
      err := EntryError(a, id);
      if err != 0 {
        return;
      }
      TallyGrows(a.env, done, t, id, i);
      t := TallyAdd(a.env, t, id, i);
      done := done[id := i];
      rest := rest - {id};
    }
    SameInfo(done, a.mapInfo);
    err := 0;
  }

  lemma {:induction false} SameInfo(a: map<int, AddrInfo>, b: map<int, AddrInfo>)
    requires forall id :: id in a <==> id in b
    requires forall id :: id in a ==> a[id] == b[id]
    ensures a == b
  {
    forall id ensures id in a.Keys <==> id in b.Keys {}
    forall id | id in a.Keys ensures a[id] == b[id] {}
  }

  method EntryError(a: AddrMan, id: int) returns (err: int)
    requires id in a.mapInfo
    ensures err == 0 <==> EntryChecked(a.View(), id)
  {
    hide Table;
    var i := a.mapInfo[id];
    if i.inTried {
      if i.lastSuccess == 0 {
        return -1;
      }
      if i.refCount != 0 {
        return -2;
      }
    } else {
      if i.refCount < 0 || i.refCount > NEW_BUCKETS_PER_ADDRESS {
        return -3;
      }
      if i.refCount == 0 {
        return -4;
      }
    }
    if i.service !in a.mapAddr || a.mapAddr[i.service] != id {
      return -5;
    }
    if i.randomPos < 0 || i.randomPos >= |a.vRandom| || a.vRandom[i.randomPos] != id {
      return -14;
    }
    if i.lastTry < 0 {
      return -6;
    }
    if i.lastSuccess < 0 {
      return -8;
    }
    return 0;
  }

  lemma {:induction false} TallyEmpty(env: Env)
    ensures TallyOk(env, map[], Tally({}, map[], map[]))
  {
    assert forall tried, net :: Members(env, map[], {}, tried, net) == {};
  }

  lemma {:induction false} TallyGrows(env: Env, done: map<int, AddrInfo>, t: Tally, id: int, i: AddrInfo)
    requires TallyOk(env, done, t) && id !in done
    ensures TallyOk(env, done[id := i], TallyAdd(env, t, id, i))
  {
    TallyAddSets(env, done, t, id, i);
    TallyAddCounts(env, done, t, id, i);
  }

  // ---------- the scan over the tried table ----------

  predicate Before(slot: Slot, n: int, i: int) {
    slot.0 < n || (slot.0 == n && slot.1 < i)
  }

  ghost predicate TriedSlotOk(env: Env, s: State, slot: Slot)
    requires slot in s.triedTable
  {
    var id := s.triedTable[slot];
    id in s.info && s.info[id].inTried && slot == TriedSlot(env, s.key, s.info[id].service)
  }

  /** The tried entry sits in its slot, and that slot has been scanned. */
  ghost predicate FoundTried(env: Env, s: State, id: int, n: int, i: int)
    requires id in s.info
  {
    var slot := TriedSlot(env, s.key, s.info[id].service);
    slot in s.triedTable && s.triedTable[slot] == id && Before(slot, n, i)
  }

  ghost predicate TriedScan(env: Env, s: State, n: int, i: int, rest: set<int>) {
    && (forall slot :: slot in s.triedTable && Before(slot, n, i) ==> TriedSlotOk(env, s, slot))
    && (forall id :: id in rest <==> id in s.info && s.info[id].inTried && !FoundTried(env, s, id, n, i))
  }

  lemma {:induction false} TriedScanStep(env: Env, s: State, n: int, i: int, rest: set<int>)
    requires TriedScan(env, s, n, i, rest)
    ensures (n, i) !in s.triedTable ==> TriedScan(env, s, n, i + 1, rest)
    ensures (n, i) in s.triedTable && (s.triedTable[(n, i)] !in rest || !TriedSlotOk(env, s, (n, i))) ==> !TriedOk(env, s)
    ensures (n, i) in s.triedTable && s.triedTable[(n, i)] in rest && TriedSlotOk(env, s, (n, i)) ==>
      TriedScan(env, s, n, i + 1, rest - {s.triedTable[(n, i)]})
  {
    var here := (n, i);
    if here in s.triedTable {
      var x := s.triedTable[here];
      if TriedOk(env, s) {
        assert x in s.info && s.info[x].inTried && here == TriedSlot(env, s.key, s.info[x].service);
        assert !FoundTried(env, s, x, n, i);
      }
      if x in rest && TriedSlotOk(env, s, here) {
        forall id ensures id in rest - {x} <==> id in s.info && s.info[id].inTried && !FoundTried(env, s, id, n, i + 1) {
          if id in s.info && id != x {
            var p := TriedSlot(env, s.key, s.info[id].service);
            assert p in s.triedTable && s.triedTable[p] == id ==> p != here;
          }
        }
      }
    }
  }

  lemma {:induction false} TriedScanDone(env: Env, s: State, rest: set<int>)
    requires TriedScan(env, s, TRIED_BUCKET_COUNT, 0, rest)
    requires forall slot :: slot in s.triedTable ==> slot.0 < TRIED_BUCKET_COUNT
    ensures rest == {} <==> TriedOk(env, s)
  {
    if TriedOk(env, s) {
      forall id ensures id in rest <==> id in {} {
        assert id in s.info && s.info[id].inTried ==> FoundTried(env, s, id, TRIED_BUCKET_COUNT, 0);
      }
    }
    if rest == {} {
      forall id | id in s.info && s.info[id].inTried ensures FoundTried(env, s, id, TRIED_BUCKET_COUNT, 0) {
        assert id !in rest;
      }
      forall slot | slot in s.triedTable ensures TriedSlotOk(env, s, slot) {
        assert Before(slot, TRIED_BUCKET_COUNT, 0);
      }
    }
  }

  method CheckTried(a: AddrMan, tried: set<int>) returns (err: int)
    requires a.Shape() && tried == Members(a.env, a.mapInfo, {}, true, None)
    ensures err == 0 <==> TriedOk(a.env, a.View())
  {
    ghost var s := a.View();
    var rest := tried;
    assert TriedScan(a.env, s, 0, 0, rest);
    var n := 0;
    while n < TRIED_BUCKET_COUNT
      invariant 0 <= n <= TRIED_BUCKET_COUNT && TriedScan(a.env, s, n, 0, rest)
    {
      var i := 0;
      while i < BUCKET_SIZE
        invariant 0 <= i <= BUCKET_SIZE && TriedScan(a.env, s, n, i, rest)
      {
        TriedScanStep(a.env, s, n, i, rest);
        var id := a.TriedAt((n, i));
        if id != -1 {
          if id !in rest {
            return -11;
          }
          if id !in a.mapInfo || TriedBucket(a.env, a.nKey, a.mapInfo[id].service) != n {
            return -17;
          }
          if Position(a.env, a.nKey, false, n, a.mapInfo[id].service) != i {
            return -18;
          }
          rest := rest - {id};
        }
        i := i + 1;
      }
      n := n + 1;
    }
    TriedScanDone(a.env, s, rest);
    err := if rest != {} then -13 else 0;
  }

  // ---------- the scan over the new table ----------

  ghost predicate NewSlotOk(env: Env, s: State, slot: Slot)
    requires slot in s.newTable
  {
    var id := s.newTable[slot];
    id in s.info && !s.info[id].inTried && slot.1 == Position(env, s.key, true, slot.0, s.info[id].service)
  }

  ghost function ScannedRefs(table: map<Slot, int>, id: int, n: int, i: int): set<Slot> {
    set slot | slot in table && table[slot] == id && Before(slot, n, i)
  }

  /** `left` holds, for every untried entry, the references that have not been found yet. */
  ghost predicate NewScan(env: Env, s: State, n: int, i: int, left: map<int, int>) {
    && (forall slot :: slot in s.newTable && Before(slot, n, i) ==> NewSlotOk(env, s, slot))
    && (forall id :: id in s.info && !s.info[id].inTried ==>
          && |ScannedRefs(s.newTable, id, n, i)| <= s.info[id].refCount
          && (id in left <==> |ScannedRefs(s.newTable, id, n, i)| < s.info[id].refCount)
          && (id in left ==> left[id] == s.info[id].refCount - |ScannedRefs(s.newTable, id, n, i)|))
    && (forall id :: id in left ==> id in s.info && !s.info[id].inTried)
  }

  lemma {:induction false} ScannedRefsStep(table: map<Slot, int>, id: int, n: int, i: int)
    ensures |ScannedRefs(table, id, n, i + 1)| == |ScannedRefs(table, id, n, i)| + Bit((n, i) in table && table[(n, i)] == id)
  {
    var a, b := ScannedRefs(table, id, n, i), ScannedRefs(table, id, n, i + 1);
    if (n, i) in table && table[(n, i)] == id {
      assert b == a + {(n, i)};
    } else {
      assert b == a;
    }
  }

  lemma {:induction false} ScannedRefsBound(table: map<Slot, int>, id: int, n: int, i: int)
    ensures |ScannedRefs(table, id, n, i)| <= |Refs(table, id)|
    ensures (n, i) in table && table[(n, i)] == id ==> |ScannedRefs(table, id, n, i)| < |Refs(table, id)|
  {
    var a, b := ScannedRefs(table, id, n, i), Refs(table, id);
    assert a <= b;
    assert |b| == |a| + |b - a|;
    if (n, i) in table && table[(n, i)] == id {
      assert (n, i) in b - a;
    }
  }

  /** One reference found: the entry is struck off when it was the last. */
  function StrikeOff(left: map<int, int>, id: int): map<int, int>
    requires id in left
  {
    if left[id] - 1 == 0 then left - {id} else left[id := left[id] - 1]
  }

  lemma {:induction false} NewScanSkip(env: Env, s: State, n: int, i: int, left: map<int, int>)
    requires NewScan(env, s, n, i, left) && (n, i) !in s.newTable
    ensures NewScan(env, s, n, i + 1, left)
  {
    forall id ensures |ScannedRefs(s.newTable, id, n, i + 1)| == |ScannedRefs(s.newTable, id, n, i)| {
      ScannedRefsStep(s.newTable, id, n, i);
    }
  }

  lemma {:induction false} NewScanFind(env: Env, s: State, n: int, i: int, left: map<int, int>)
    requires NewScan(env, s, n, i, left) && (n, i) in s.newTable && s.newTable[(n, i)] in left && NewSlotOk(env, s, (n, i))
    ensures NewScan(env, s, n, i + 1, StrikeOff(left, s.newTable[(n, i)]))
  {
    var x := s.newTable[(n, i)];
    forall id ensures |ScannedRefs(s.newTable, id, n, i + 1)| == |ScannedRefs(s.newTable, id, n, i)| + Bit(id == x) {
      ScannedRefsStep(s.newTable, id, n, i);
    }
  }

  lemma {:induction false} NewScanBad(env: Env, s: State, n: int, i: int, left: map<int, int>)
    requires NewScan(env, s, n, i, left) && (n, i) in s.newTable
    requires s.newTable[(n, i)] !in left || !NewSlotOk(env, s, (n, i))
    ensures !NewOk(env, s)
  {
    if NewOk(env, s) {
      var x := s.newTable[(n, i)];
      assert x in s.info && !s.info[x].inTried;
      ScannedRefsBound(s.newTable, x, n, i);
      assert false;
    }
  }

  lemma {:induction false} NewScanDone(env: Env, s: State, left: map<int, int>)
    requires NewScan(env, s, NEW_BUCKET_COUNT, 0, left)
    requires forall slot :: slot in s.newTable ==> 0 <= slot.0 < NEW_BUCKET_COUNT
    requires forall id :: id in s.info ==> EntryChecked(s, id)
    ensures left == map[] <==> NewOk(env, s)
  {
    forall id ensures ScannedRefs(s.newTable, id, NEW_BUCKET_COUNT, 0) == Refs(s.newTable, id) {
      assert forall slot :: slot in s.newTable ==> Before(slot, NEW_BUCKET_COUNT, 0);
    }
    if NewOk(env, s) {
      forall id ensures id in left.Keys <==> id in {} {}
      assert left.Keys == {};
    }
    if left == map[] {
      forall slot | slot in s.newTable ensures NewSlotOk(env, s, slot) {
        assert Before(slot, NEW_BUCKET_COUNT, 0);
      }
      forall id | id in s.info ensures s.info[id].refCount == |Refs(s.newTable, id)| <= NEW_BUCKETS_PER_ADDRESS {
        if s.info[id].inTried {
          forall slot ensures slot in Refs(s.newTable, id) <==> slot in {} {
            assert slot in s.newTable ==> NewSlotOk(env, s, slot);
          }
          assert Refs(s.newTable, id) == {};
        } else {
          assert id !in left;
        }
      }
    }
  }

  /** One slot of the new table. */
  method CheckNewSlot(a: AddrMan, n: int, i: int, left: map<int, int>) returns (err: int, rest: map<int, int>)
    requires a.Shape() && 0 <= n < NEW_BUCKET_COUNT && 0 <= i < BUCKET_SIZE && NewScan(a.env, a.View(), n, i, left)
    ensures err != 0 ==> !NewOk(a.env, a.View())
    ensures err == 0 ==> NewScan(a.env, a.View(), n, i + 1, rest)
  {
    hide NewScan, NewOk, StrikeOff, Position;
    ghost var s := a.View();
    err, rest := 0, left;
    var id := a.NewAt((n, i));
    if id != -1 {
      if id !in left {
        NewScanBad(a.env, s, n, i, left);
        return -12, left;
      }
      if id !in a.mapInfo || Position(a.env, a.nKey, true, n, a.mapInfo[id].service) != i {
        NewScanBad(a.env, s, n, i, left);
        return -19, left;
      }
      LeftIsUntried(a.env, s, n, i, left, id);
      NewScanFind(a.env, s, n, i, left);
      rest := StrikeOff(left, id);
    } else {
      NewScanSkip(a.env, s, n, i, left);
    }
  }

  method CheckNew(a: AddrMan, untried: map<int, int>) returns (err: int)
    requires a.Shape() && forall id :: id in a.mapInfo ==> EntryChecked(a.View(), id)
    requires untried.Keys == Members(a.env, a.mapInfo, {}, false, None)
    requires forall id :: id in untried ==> id in a.mapInfo && untried[id] == a.mapInfo[id].refCount
    ensures err == 0 <==> NewOk(a.env, a.View())
  {
    hide NewScan, NewOk, Members, StrikeOff;
    ghost var s := a.View();
    var left := untried;
    NewScanStart(a.env, s, left);
    var n := 0;
    while n < NEW_BUCKET_COUNT
      invariant 0 <= n <= NEW_BUCKET_COUNT && NewScan(a.env, s, n, 0, left)
    {
      var i := 0;
      while i < BUCKET_SIZE
        invariant 0 <= i <= BUCKET_SIZE && NewScan(a.env, s, n, i, left)
      {
        err, left := CheckNewSlot(a, n, i, left);
        if err != 0 {
          return;
        }
        i := i + 1;
      }
      NewScanNextBucket(a.env, s, n, left);
      n := n + 1;
    }
    TableRange(a.vvNew);
    NewScanDone(a.env, s, left);
    err := if left != map[] then -15 else 0;
  }

  lemma {:induction false} TableRange(a: array2<int>)
    ensures forall slot :: slot in Table(a) ==> 0 <= slot.0 < a.Length0 && 0 <= slot.1 < a.Length1
  {
  }

  lemma {:induction false} LeftIsUntried(env: Env, s: State, n: int, i: int, left: map<int, int>, id: int)
    requires NewScan(env, s, n, i, left) && id in left
    ensures id in s.info && !s.info[id].inTried
  {
  }

  lemma {:induction false} NewScanStart(env: Env, s: State, left: map<int, int>)
    requires forall id :: id in s.info ==> EntryChecked(s, id)
    requires left.Keys == Members(env, s.info, {}, false, None)
    requires forall id :: id in left ==> id in s.info && left[id] == s.info[id].refCount
    requires forall slot :: slot in s.newTable ==> 0 <= slot.0 && 0 <= slot.1
    ensures NewScan(env, s, 0, 0, left)
  {
    forall id ensures ScannedRefs(s.newTable, id, 0, 0) == {} {}
    forall id ensures id in left <==> id in s.info && !s.info[id].inTried {
      assert id in left.Keys <==> id in Members(env, s.info, {}, false, None);
    }
  }

  lemma {:induction false} NewScanNextBucket(env: Env, s: State, n: int, left: map<int, int>)
    requires NewScan(env, s, n, BUCKET_SIZE, left)
    requires forall slot :: slot in s.newTable ==> 0 <= slot.1 < BUCKET_SIZE
    ensures NewScan(env, s, n + 1, 0, left)
  {
    forall id ensures ScannedRefs(s.newTable, id, n + 1, 0) == ScannedRefs(s.newTable, id, n, BUCKET_SIZE) {
      forall slot | slot in s.newTable ensures Before(slot, n + 1, 0) == Before(slot, n, BUCKET_SIZE) {}
    }
    forall slot | slot in s.newTable && Before(slot, n + 1, 0) ensures NewSlotOk(env, s, slot) {
      assert Before(slot, n, BUCKET_SIZE);
    }
  }

  // ---------- the check ----------

  ghost predicate NetworkChecked(env: Env, s: State, net: nat)
    requires net in s.counts
  {
    && s.counts[net].nNew == |Members(env, s.info, {}, false, Some(net))|
    && s.counts[net].nTried == |Members(env, s.info, {}, true, Some(net))|
  }

  lemma {:induction false} TallyTells(env: Env, s: State, t: Tally, net: nat)
    requires TallyOk(env, s.info, t) && net in s.counts
    ensures NetworkChecked(env, s, net) <==>
      TallyCount(t, net).nNew == s.counts[net].nNew && TallyCount(t, net).nTried == s.counts[net].nTried
  {
  }

  lemma {:induction false} TallySize(env: Env, info: map<int, AddrInfo>, t: Tally)
    requires TallyOk(env, info, t)
    ensures |t.counts| == |Networks(env, info)|
  {
    assert |t.counts| == |t.counts.Keys|;
  }

  lemma {:induction false} CountsCheckedAll(env: Env, s: State)
    ensures CountsChecked(env, s) <==>
      |s.counts| >= |Networks(env, s.info)| && forall net :: net in s.counts ==> NetworkChecked(env, s, net)
  {
  }

  method CheckCounts(a: AddrMan, t: Tally) returns (err: int)
    requires TallyOk(a.env, a.mapInfo, t)
    ensures err == 0 <==> CountsChecked(a.env, a.View())
  {
    hide Table, TallyOk, NetworkChecked, CountsChecked, TallyCount;
    ghost var s := a.View();
    TallySize(a.env, s.info, t);
    CountsCheckedAll(a.env, s);
    if |a.networkCounts| < |t.counts| {
      return -20;
    }
    var rest := a.networkCounts.Keys;
    while rest != {}
      invariant rest <= a.networkCounts.Keys
      invariant forall net :: net in a.networkCounts && net !in rest ==> NetworkChecked(a.env, s, net)
      decreases |rest|
    {
      if !exists net :: net in rest {
        assert false;
      }
      var net :| net in rest;
      TallyTells(a.env, s, t, net);
      if TallyCount(t, net).nNew != a.networkCounts[net].nNew || TallyCount(t, net).nTried != a.networkCounts[net].nTried {
        return -21;
      }
      rest := rest - {net};
    }
    err := 0;
  }

  method CheckAddrman(a: AddrMan) returns (err: int)
    requires a.Shape()
    ensures err == 0 <==> Checked(a.env, a.View())
  {
    hide Table, TriedOk, NewOk, CountsChecked, Members, EntryChecked;
    if |a.vRandom| != a.nTried + a.nNew {
      return -7;
    }
    var t;
    err, t := CheckEntries(a);
    if err != 0 {
      return;
    }
    if |t.tried| != a.nTried {
      return -9;
    }
    assert |t.untried| == |t.untried.Keys|;
    if |t.untried| != a.nNew {
      return -10;
    }
    err := CheckTried(a, t.tried);
    if err != 0 {
      return;
    }
    err := CheckNew(a, t.untried);
    if err != 0 {
      return;
    }
    if a.nKey == 0 {
      return -16;
    }
    err := CheckCounts(a, t);
  }

  // ---------- a zero verdict in every reachable state ----------

  lemma {:induction false} DistinctCount(ids: seq<int>)
    requires Distinct(ids)
    ensures |set id | id in ids| == |ids|
    decreases |ids|
  {
    if |ids| > 0 {
      var front, last := ids[..|ids| - 1], ids[|ids| - 1];
      DistinctCount(front);
      assert (set id | id in ids) == (set id | id in front) + {last};
    }
  }

  lemma {:induction false} RandomCount(s: State)
    requires RandomOk(s)
    ensures |s.random| == |s.info|
  {
    forall i, j | 0 <= i < j < |s.random| ensures s.random[i] != s.random[j] {
      var x, y := s.random[i], s.random[j];
      assert s.info[x].randomPos == i && s.info[y].randomPos == j;
    }
    DistinctCount(s.random);
    forall id ensures id in (set x | x in s.random) <==> id in s.info.Keys {
      if id in s.info {
        assert s.random[s.info[id].randomPos] == id;
      }
    }
    assert (set x | x in s.random) == s.info.Keys;
  }

  lemma {:induction false} SidesPartition(env: Env, info: map<int, AddrInfo>)
    ensures |info| == |Members(env, info, {}, true, None)| + |Members(env, info, {}, false, None)|
  {
    var t, n := Members(env, info, {}, true, None), Members(env, info, {}, false, None);
    forall id ensures id in t + n <==> id in info.Keys {}
    assert t + n == info.Keys;
    forall id ensures id in t * n <==> id in {} {}
    assert t * n == {};
  }

  lemma {:induction false} SubsetCount(a: set<nat>, b: set<nat>)
    requires a <= b
    ensures |a| <= |b|
  {
    assert |b| == |a| + |b - a|;
  }

  lemma {:induction false} NetworksCounted(env: Env, s: State)
    requires CountsOk(env, s, {})
    ensures CountsChecked(env, s)
  {
    forall net: nat | net in Networks(env, s.info) ensures net in s.counts.Keys {
      var id :| id in s.info && env.network(s.info[id].service.ip) == net;
      if s.info[id].inTried {
        assert id in Members(env, s.info, {}, true, Some(net));
      } else {
        assert id in Members(env, s.info, {}, false, Some(net));
      }
      assert CountOf(s, net) != Count(0, 0);
    }
    SubsetCount(Networks(env, s.info), s.counts.Keys);
    assert |s.counts| == |s.counts.Keys|;
    forall net | net in s.counts
      ensures s.counts[net].nNew == |Members(env, s.info, {}, false, Some(net))|
      ensures s.counts[net].nTried == |Members(env, s.info, {}, true, Some(net))|
    {
      assert CountOf(s, net) == s.counts[net];
    }
  }

  lemma {:induction false} EntriesChecked(env: Env, s: State)
    requires MapsOk(s) && RandomOk(s) && NewOk(env, s) && LiveOk(s, {}) && TimesOk(s)
    ensures forall id :: id in s.info ==> EntryChecked(s, id)
  {
    forall id | id in s.info ensures EntryChecked(s, id) {
      if s.info[id].inTried {
        forall slot ensures slot in Refs(s.newTable, id) <==> slot in {} {
          if slot in s.newTable {
            var x := s.newTable[slot];
            assert !s.info[x].inTried;
          }
        }
        assert Refs(s.newTable, id) == {};
      }
    }
  }

  /** A consistent state with times in order and a key passes the check. */
  lemma {:induction false} ConsistentChecked(env: Env, s: State)
    requires Consistent(env, s) && TimesOk(s) && s.key != 0
    ensures Checked(env, s)
  {
    hide MapsOk, RandomOk, NewOk, TriedOk, LiveOk, TimesOk, EntryChecked, Members;
    RandomCount(s);
    SidesPartition(env, s.info);
    EntriesChecked(env, s);
    NetworksCounted(env, s);
  }

  /** In every run from construction with times in order, the check passes after every operation. */
  lemma {:induction false} ReachableChecked(env: Env, key: Key, ops: seq<Op>)
    requires key != 0 && forall i :: 0 <= i < |ops| ==> Timely(ops[i])
    ensures Consistent(env, Empty(key)) && Checked(env, Run(env, Empty(key), ops))
  {
    hide Inv, CollisionsOk, Evolves, TimesOk, Timely, Run, Checked;
    ReachableConsistent(env, key, ops);
    EmptyConsistent(env, key);
    RunKeepsKey(env, Empty(key), ops);
    ConsistentChecked(env, Run(env, Empty(key), ops));
  }

  lemma {:induction false} RunKeepsKey(env: Env, s: State, ops: seq<Op>)
    requires Consistent(env, s)
    ensures Run(env, s, ops).key == s.key
  {
    hide Inv, CollisionsOk, TimesOk, Timely, Run;
    RunKeeps(env, s, ops);
  }

  // ---------- what a zero verdict guarantees ----------

  lemma {:induction false} ImageCount(info: map<int, AddrInfo>, ids: set<int>)
    requires ids <= info.Keys
    requires forall x, y :: x in ids && y in ids && info[x].randomPos == info[y].randomPos ==> x == y
    ensures |set id | id in ids :: info[id].randomPos| == |ids|
    decreases |ids|
  {
    if ids != {} {
      if !exists x :: x in ids {
        assert false;
      }
      var x :| x in ids;
      var rest := ids - {x};
      ImageCount(info, rest);
      var a, b := set id | id in ids :: info[id].randomPos, set id | id in rest :: info[id].randomPos;
      forall p ensures p in a <==> p in b + {info[x].randomPos} {
        if p in a {
          var id :| id in ids && info[id].randomPos == p;
          assert id == x || id in rest;
        }
        if p in b {
          var id :| id in rest && info[id].randomPos == p;
          assert id in ids;
        }
      }
      assert a == b + {info[x].randomPos};
      assert info[x].randomPos !in b;
    }
  }

  /** The numbers below n. */
  function Below(n: nat): (r: set<int>)
    ensures forall i :: i in r <==> 0 <= i < n
    ensures |r| == n
  {
    if n == 0 then {} else Below(n - 1) + {n - 1}
  }

  /** If every entry has a place of its own and there are as many places as entries, every place is taken. */
  lemma {:induction false} EveryPlaceTaken(s: State, i: int)
    requires forall id :: id in s.info ==> 0 <= s.info[id].randomPos < |s.random| && s.random[s.info[id].randomPos] == id
    requires |s.random| == |s.info| && 0 <= i < |s.random|
    ensures var id := s.random[i]; id in s.info && s.info[id].randomPos == i
  {
    var used := set id | id in s.info.Keys :: s.info[id].randomPos;
    var all := Below(|s.random|);
    ImageCount(s.info, s.info.Keys);
    assert used <= all;
    assert |all| == |used| + |all - used|;
    assert all - used == {};
    assert i in all;
    assert i in used;
    var id :| id in s.info && s.info[id].randomPos == i;
  }

  /** What a zero verdict leaves open about the counters: networks that have entries but no counters. */
  lemma {:induction false} CountsCheckedExact(env: Env, s: State)
    requires Checked(env, s)
    ensures CountsOk(env, s, {}) <==> forall net :: net in Networks(env, s.info) ==> net in s.counts
  {
    if CountsOk(env, s, {}) {
      forall net | net in Networks(env, s.info) ensures net in s.counts {
        var id :| id in s.info && env.network(s.info[id].service.ip) == net;
        assert id in Members(env, s.info, {}, s.info[id].inTried, Some(net));
        assert CountOf(s, net) != Count(0, 0);
      }
    }
    if forall net :: net in Networks(env, s.info) ==> net in s.counts {
      forall net: nat
        ensures CountOf(s, net).nNew == |Members(env, s.info, {}, false, Some(net))|
        ensures CountOf(s, net).nTried == |Members(env, s.info, {}, true, Some(net))|
      {
        if net !in s.counts {
          NoMembers(env, s.info, net, false);
          NoMembers(env, s.info, net, true);
        }
      }
    }
  }

  lemma {:induction false} NoMembers(env: Env, info: map<int, AddrInfo>, net: nat, tried: bool)
    requires net !in Networks(env, info)
    ensures Members(env, info, {}, tried, Some(net)) == {}
  {
    forall id ensures id in Members(env, info, {}, tried, Some(net)) <==> id in {} {
      assert id in info ==> env.network(info[id].service.ip) in Networks(env, info);
    }
  }

  /** With a zero verdict, a state is consistent exactly when, besides, no address is stale, ids are below
      the next id, every address is routable, every network with entries has counters, and every waiting id is
      dead or collides. */
  lemma {:induction false} CheckedConsistent(env: Env, s: State)
    requires Checked(env, s)
    ensures Consistent(env, s) <==>
      && s.idCount >= 0
      && (forall a :: a in s.ids ==> var id := s.ids[a]; id in s.info && s.info[id].service == a)
      && (forall id :: id in s.info ==> 0 <= id < s.idCount)
      && AddressesOk(env, s)
      && (forall net :: net in Networks(env, s.info) ==> net in s.counts)
      && CollisionsOk(env, s)
    ensures TimesOk(s)
  {
    assert TimesOk(s);
    hide Members, TimesOk, TriedOk, NewOk, MapsOk, RandomOk, LiveOk, CountsOk, CountsChecked, EntryChecked, Networks, CollisionsOk;
    CountsCheckedExact(env, s);
    SidesPartition(env, s.info);
    RandomChecked(env, s);
    LiveChecked(s);
    MapsChecked(s);
  }

  lemma {:induction false} RandomChecked(env: Env, s: State)
    requires |s.random| == |s.info| && forall id :: id in s.info ==> EntryChecked(s, id)
    ensures RandomOk(s)
  {
    forall i | 0 <= i < |s.random| ensures var id := s.random[i]; id in s.info && s.info[id].randomPos == i {
      EveryPlaceTaken(s, i);
    }
  }

  lemma {:induction false} MapsChecked(s: State)
    requires forall id :: id in s.info ==> EntryChecked(s, id)
    ensures MapsOk(s) <==>
      && s.idCount >= 0
      && (forall a :: a in s.ids ==> var id := s.ids[a]; id in s.info && s.info[id].service == a)
      && (forall id :: id in s.info ==> 0 <= id < s.idCount)
  {
  }

  lemma {:induction false} LiveChecked(s: State)
    requires forall id :: id in s.info ==> EntryChecked(s, id)
    ensures LiveOk(s, {})
  {
  }
}

/** The partially downloaded block: the loops that place prefilled transactions, map short ids to slots, match
    the pool and the extra transactions, and fill in what is missing. */
module CompactBlocksClass {
  import opened Options
  import opened CompactBlocks
  import opened CompactBlocksMatch

  /** What 16 bits keep of a number. */
  function Low16(x: nat): (r: nat)
    ensures r <= x && (x <= MAX_INDEX ==> r == x)
  {
    x % (MAX_INDEX + 1)
  }

  /** The first i short ids are mapped, with p slots scanned. */
  ghost predicate Mapping(shortIds: seq<ShortId>, slots: seq<Option<Tx>>, m: map<ShortId, nat>, i: nat, p: nat) {
    && i <= |shortIds| && p <= |slots| && Empty(slots, p) == i
    && m.Keys == Elements(shortIds[..i]) && (forall k :: k in m ==> m[k] < |slots|)
    && (|slots| <= MAX_INDEX + 1 ==> Maps(shortIds, slots, m, p))
  }

  /** The scan for empty slots never leaves the block, and fails exactly for repeated ids or crowded buckets. The
      slots and the number of filled slots passed over are kept in 16 bits. */
  method MapShortIds(env: Env, shortIds: seq<ShortId>, slots: seq<Option<Tx>>) returns (m: map<ShortId, nat>, ok: bool)
    requires Empty(slots, |slots|) == |shortIds| && (shortIds == [] || |slots| - |shortIds| <= MAX_INDEX)
    ensures ok <==> Mappable(env, shortIds)
    ensures ok ==> |m| == |shortIds| && forall k :: k in m ==> m[k] < |slots|
    ensures ok && |slots| <= MAX_INDEX + 1 ==> Maps(shortIds, slots, m, |slots|)
  {
    hide Empty, Maps, Elements, Low16, Mappable, Mapping;
    m := map[];
    var offset: nat := 0;
    MapStart(shortIds, slots);
    for i := 0 to |shortIds|
      invariant Mapping(shortIds, slots, m, i, i + offset)
      invariant forall k :: 0 <= k < i ==> !env.crowded(k)
    {
      offset := NextEmpty(shortIds, slots, m, i, offset);
      MapStep(shortIds, slots, m, i, i + offset);
      m := m[shortIds[i] := Low16(i + offset)];
      if env.crowded(i) {
        Crowded(env, shortIds, i);
        return m, false;
      }
    }
    MapEnd(env, shortIds, slots, m, |shortIds| + offset);
    ok := |m| == |shortIds|;
  }

  lemma {:induction false} MapStart(shortIds: seq<ShortId>, slots: seq<Option<Tx>>)
    ensures Mapping(shortIds, slots, map[], 0, 0)
  {
    hide Empty, Maps, Elements;
    NothingMapped(shortIds, slots);
  }

  lemma {:induction false} MapStep(shortIds: seq<ShortId>, slots: seq<Option<Tx>>, m: map<ShortId, nat>, i: nat, p: nat)
    requires Mapping(shortIds, slots, m, i, p) && i < |shortIds| && p < |slots| && slots[p].None?
    ensures Mapping(shortIds, slots, m[shortIds[i] := Low16(p)], i + 1, p + 1)
  {
    hide Empty, Maps, Elements;
    EmptyStep(slots, p);
    if |slots| <= MAX_INDEX + 1 {
      MapsMore(shortIds, slots, m, p);
    }
    KeysMore(shortIds, m, i, Low16(p));
  }

  lemma {:induction false} MapSkip(shortIds: seq<ShortId>, slots: seq<Option<Tx>>, m: map<ShortId, nat>, i: nat, p: nat)
    requires Mapping(shortIds, slots, m, i, p) && i < |shortIds| == Empty(slots, |slots|) && p < |slots| && slots[p].Some?
    ensures Mapping(shortIds, slots, m, i, p + 1) && p + 1 < |slots|
  {
    hide Empty, Maps, Elements;
    EmptyStep(slots, p);
    EmptyMonotone(slots, p + 1, |slots|);
    if |slots| <= MAX_INDEX + 1 {
      MapsSkip(shortIds, slots, m, p);
    }
  }

  lemma {:induction false} MapEnd(env: Env, shortIds: seq<ShortId>, slots: seq<Option<Tx>>, m: map<ShortId, nat>, p: nat)
    requires Mapping(shortIds, slots, m, |shortIds|, p) && Empty(slots, |slots|) == |shortIds|
    requires forall i :: 0 <= i < |shortIds| ==> !env.crowded(i)
    ensures |m| == |shortIds| <==> Mappable(env, shortIds)
    ensures forall k :: k in m ==> m[k] < |slots|
    ensures |slots| <= MAX_INDEX + 1 ==> Maps(shortIds, slots, m, |slots|)
  {
    hide Empty, Maps, Elements, NoRepeats;
    assert shortIds[..|shortIds|] == shortIds;
    SetSize(shortIds);
    assert |m| == |m.Keys|;
    if |slots| <= MAX_INDEX + 1 {
      AllMapped(shortIds, slots, m, p);
    }
  }

  lemma {:induction false} Crowded(env: Env, shortIds: seq<ShortId>, i: nat)
    requires i < |shortIds| && env.crowded(i)
    ensures !Mappable(env, shortIds)
  {
  }

  /** The inner scan for short id number i. */
  method NextEmpty(shortIds: seq<ShortId>, slots: seq<Option<Tx>>, ghost m: map<ShortId, nat>, i: nat, start: nat) returns (offset: nat)
    requires i < |shortIds| && Empty(slots, |slots|) == |shortIds| && |slots| - |shortIds| <= MAX_INDEX
    requires Mapping(shortIds, slots, m, i, i + start)
    ensures i + offset < |slots| && slots[i + offset].None? && Mapping(shortIds, slots, m, i, i + offset)
  {
    hide Empty, Mapping;
    offset := start;
    SlotLeft(shortIds, slots, m, i, i + offset);
    while slots[i + offset].Some?
      invariant i + offset < |slots| && Mapping(shortIds, slots, m, i, i + offset)
      decreases |slots| - offset
    {
      MapSkip(shortIds, slots, m, i, i + offset);
      PassedFew(shortIds, slots, m, i, i + offset + 1);
      offset := Low16(offset + 1);
    }
  }

  lemma {:induction false} SlotLeft(shortIds: seq<ShortId>, slots: seq<Option<Tx>>, m: map<ShortId, nat>, i: nat, p: nat)
    requires Mapping(shortIds, slots, m, i, p) && i < |shortIds| == Empty(slots, |slots|)
    ensures p < |slots|
  {
    hide Empty, Maps, Elements;
  }

  /** The slots passed over are filled ones, and there are not too many of those for 16 bits. */
  lemma {:induction false} PassedFew(shortIds: seq<ShortId>, slots: seq<Option<Tx>>, m: map<ShortId, nat>, i: nat, p: nat)
    requires Mapping(shortIds, slots, m, i, p) && |shortIds| == Empty(slots, |slots|)
    ensures p - i <= |slots| - |shortIds|
  {
    hide Empty, Maps, Elements;
    EmptyMonotone(slots, p, |slots|);
  }

  /** The scan as a loop. */
  method Scan(env: Env, m: map<ShortId, nat>, start: Match, txs: seq<Tx>, extra: bool) returns (s: Match)
    requires |start.slots| == |start.have| && forall k :: k in m ==> m[k] < |start.slots|
    ensures s == Scanned(env, m, start, txs, extra)
  {
    hide Consider;
    s := start;
    assert txs[0..] == txs;
    for i := 0 to |txs|
      invariant |s.slots| == |s.have| == |start.slots|
      invariant Scanned(env, m, start, txs, extra) == Scanned(env, m, s, txs[i..], extra)
    {
      assert txs[i..][1..] == txs[i + 1..];
      s := Consider(env, m, s, txs[i], extra);
      if s.count == |m| {
        return;
      }
    }
  }

  // ---------- the object ----------

  class PartiallyDownloadedBlock {
    const env: Env
    var headerIsNull: bool
    var available: seq<Option<Tx>>
    var prefilledCount: nat
    var mempoolCount: int

    constructor (env: Env)
      ensures this.env == env && headerIsNull && available == [] && prefilledCount == 0 && mempoolCount == 0
    {
      this.env, headerIsNull, available, prefilledCount, mempoolCount := env, true, [], 0, 0;
    }

    /** Puts the prefilled transactions into their slots. */
    static method PlacePrefilled(env: Env, cb: CompactBlock) returns (slots: seq<Option<Tx>>, ok: bool)
      ensures ok <==> AllPrefilledOk(env, cb)
      ensures ok ==> Fit(cb, |cb.prefilled|) && slots == Placed(cb, |cb.prefilled|)
    {
      slots := seq(|cb.shortIds| + |cb.prefilled|, _ => None);
      var last := -1;
      for i := 0 to |cb.prefilled|
        invariant forall k :: 0 <= k < i ==> PrefilledOk(env, cb, k)
        invariant Fit(cb, i) && slots == Placed(cb, i) && last == Last(cb.prefilled, i)
      {
        if env.isNull(cb.prefilled[i].tx) {
          assert !PrefilledOk(env, cb, i);
          return slots, false;
        }
        last := last + cb.prefilled[i].index + 1;
        assert last == Slot(cb.prefilled, i);
        if last > MAX_INDEX || last > |cb.shortIds| + i {
          assert !PrefilledOk(env, cb, i);
          return slots, false;
        }
        assert PrefilledOk(env, cb, i);
        slots := slots[last := Some(cb.prefilled[i].tx)];
      }
      ok := true;
    }

    /** Initialises the slots from a compact block, the pool and the extra transactions. A message in which
        each of the 65536 indexes is prefilled and short ids follow would make the scan for empty slots go round
        for ever; messages that are read from the network have at most 65535 transactions. */
    method InitData(cb: CompactBlock, pool: seq<Tx>, extra: seq<Tx>) returns (status: Status)
      requires Refused(cb) || |cb.prefilled| != MAX_INDEX + 1 || cb.shortIds == []
      modifies this
      ensures status == Invalid <==> old(Refused(cb))
      ensures status == Failed <==> !old(Refused(cb)) && !Mappable(env, cb.shortIds)
      ensures status == Ok || status == Invalid || status == Failed
      ensures status != Ok ==> mempoolCount == old(mempoolCount)
      ensures status == Ok ==> !headerIsNull && Fit(cb, |cb.prefilled|) && prefilledCount == |cb.prefilled|
      ensures status == Ok && |cb.shortIds| + |cb.prefilled| <= MAX_INDEX + 1 ==>
        && Matched(env, cb, available, Elements(pool) + Elements(extra))
        && mempoolCount == old(mempoolCount) + |cb.shortIds| - Empty(available, |available|)
        && (Apart(env, pool, extra) && Steady(old(mempoolCount), cb.shortIds) ==>
          Exhaustive(env, cb, available, Elements(pool) + Elements(extra)))
    {
      hide AllPrefilledOk, Empty, Maps, Mappable, Matched, Exhaustive, Apart, Placed, Fit, Elements, Scanned, Steady;
      if cb.headerIsNull || (cb.shortIds == [] && cb.prefilled == []) {
        return Invalid;
      }
      if |cb.shortIds| + |cb.prefilled| > MAX_TRANSACTIONS {
        return Invalid;
      }
      if !headerIsNull || available != [] {
        return Invalid;
      }
      headerIsNull := false;
      var ok;
      available, ok := PlacePrefilled(env, cb);
      if !ok {
        return Invalid;
      }
      prefilledCount := |cb.prefilled|;
      PlacedEmpty(cb, |cb.prefilled|);
      PrefilledFew(env, cb);
      var m;
      m, ok := MapShortIds(env, cb.shortIds, available);
      if !ok {
        return Failed;
      }
      MappableParts(env, cb.shortIds);
      if |cb.shortIds| + |cb.prefilled| <= MAX_INDEX + 1 {
        BothScans(env, cb, m, mempoolCount, pool, extra);
      }
      var s := Match(available, seq(|available|, _ => false), mempoolCount);
      s := Scan(env, m, s, pool, false);
      s := Scan(env, m, s, extra, true);
      available, mempoolCount := s.slots, s.count;
      status := Ok;
    }

    /** The reasons to refuse a compact block. */
    ghost predicate Refused(cb: CompactBlock)
      reads this
    {
      || cb.headerIsNull || (cb.shortIds == [] && cb.prefilled == [])
      || |cb.shortIds| + |cb.prefilled| > MAX_TRANSACTIONS
      || !headerIsNull || available != []
      || !AllPrefilledOk(env, cb)
    }

    /** Fills the empty slots with the transactions given, in order, and hands out the block. */
    method FillBlock(missing: seq<Tx>, checked: Status) returns (status: Status, block: seq<Tx>)
      requires checked != Invalid
      modifies this`headerIsNull, this`available
      ensures old(headerIsNull) || |missing| != old(Empty(available, |available|)) ==> status == Invalid
      ensures !old(headerIsNull) && |missing| == old(Empty(available, |available|)) ==>
        status == checked && block == Filled(old(available), missing, |old(available)|)
      ensures !old(headerIsNull) && |missing| >= old(Empty(available, |available|)) ==> headerIsNull && available == []
      ensures !old(headerIsNull) && |missing| < old(Empty(available, |available|)) ==>
        !headerIsNull && available == HandedOut(old(available), Gap(old(available), |missing|, |old(available)|))
    {
      hide Filled, Empty, HandedOut, Gap;
      if headerIsNull {
        return Invalid, [];
      }
      ghost var was := available;
      NothingFilled(was, missing);
      block := [];
      var offset := 0;
      for i := 0 to |available|
        invariant |available| == |was| && available == HandedOut(was, i) && !headerIsNull
        invariant offset == Empty(was, i) <= |missing| && block == Filled(was, missing, i)
      {
        EmptyMonotone(was, i + 1, |was|);
        FilledNext(was, missing, i);
        HandedOutNext(was, i);
        if available[i].None? {
          if |missing| <= offset {
            GapUnique(was, offset, |was|, i);
            return Invalid, block;
          }
          block := block + [missing[offset]];
          offset := offset + 1;
        } else {
          block := block + [available[i].value];
          available := available[i := None];
        }
      }
      headerIsNull, available := true, [];
      if |missing| != offset {
        return Invalid, block;
      }
      status := checked;
    }
  }

  lemma {:induction false} HandedOutNext(slots: seq<Option<Tx>>, i: nat)
    requires i < |slots|
    ensures HandedOut(slots, i)[i] == slots[i]
    ensures HandedOut(slots, i + 1) == if slots[i].Some? then HandedOut(slots, i)[i := None] else HandedOut(slots, i)
  {
  }

  lemma {:induction false} GapUnique(slots: seq<Option<Tx>>, k: nat, n: nat, g: nat)
    requires g < n <= |slots| && slots[g].None? && Empty(slots, g) == k
    ensures Empty(slots, n) > k && Gap(slots, k, n) == g
  {
    EmptyMonotone(slots, g, n);
    if g < n - 1 {
      EmptyMonotone(slots, g, n - 1);
      GapUnique(slots, k, n - 1, g);
    }
  }

  lemma {:induction false} NothingFilled(slots: seq<Option<Tx>>, missing: seq<Tx>)
    ensures Empty(slots, 0) == 0 && Filled(slots, missing, 0) == [] && HandedOut(slots, 0) == slots
  {
  }

  lemma {:induction false} FilledNext(slots: seq<Option<Tx>>, missing: seq<Tx>, i: nat)
    requires i < |slots|
    ensures Empty(slots, i + 1) == Empty(slots, i) + (if slots[i].None? then 1 else 0)
    ensures Empty(slots, i + 1) <= |missing| ==>
      Filled(slots, missing, i + 1)
      == Filled(slots, missing, i) + [if slots[i].Some? then slots[i].value else missing[Empty(slots, i)]]
  {
  }

  lemma {:induction false} MappableParts(env: Env, shortIds: seq<ShortId>)
    requires Mappable(env, shortIds)
    ensures NoRepeats(shortIds)
  {
  }

  /** Prefilled transactions have different indexes of 16 bits. */
  lemma {:induction false} PrefilledFew(env: Env, cb: CompactBlock)
    requires AllPrefilledOk(env, cb)
    ensures |cb.prefilled| <= MAX_INDEX + 1
  {
    if cb.prefilled != [] {
      var i := |cb.prefilled| - 1;
      SlotAtLeast(cb.prefilled, i);
      assert PrefilledOk(env, cb, i);
    }
  }

  lemma {:induction false} SlotAtLeast(p: seq<Prefilled>, i: nat)
    requires i < |p|
    ensures Slot(p, i) >= i
  {
    if i > 0 {
      SlotAtLeast(p, i - 1);
    }
  }
}

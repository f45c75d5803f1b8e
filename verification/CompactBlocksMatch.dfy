/** Matching transactions to the slots of a compact block: the map from short ids to slots, one transaction
    at a time, the scans with their early exit, and what they leave. */
module CompactBlocksMatch {
  import opened Options
  import opened CompactBlocks

  ghost predicate NoRepeats<T>(s: seq<T>) {
    forall i, j :: 0 <= i < j < |s| ==> s[i] != s[j]
  }

  lemma {:induction false} SetSize<T>(s: seq<T>)
    ensures |Elements(s)| <= |s| && (|Elements(s)| == |s| <==> NoRepeats(s))
  {
    if s == [] {
      assert Elements(s) == {};
    } else {
      var n := |s| - 1;
      var t, x := s[..n], s[n];
      SetSize(t);
      ElementsMore(t, x);
      assert t + [x] == s;
      if x in t {
        var k :| 0 <= k < n && t[k] == x;
        assert s[k] == s[n];
      } else if NoRepeats(t) {
        assert NoRepeats(s);
      } else {
        var i, j :| 0 <= i < j < |t| && t[i] == t[j];
        assert s[i] == s[j];
      }
    }
  }

  lemma {:induction false} ElementsMore<T>(s: seq<T>, x: T)
    ensures Elements(s + [x]) == Elements(s) + {x}
    ensures x in s ==> Elements(s + [x]) == Elements(s)
    ensures x in Elements(s) <==> x in s
  {
    forall y ensures y in Elements(s + [x]) <==> y in Elements(s) + {x} {
    }
  }

  // ---------- mapping short ids to slots ----------

  /** The map sends each short id to an empty slot with that id, for the slots before p. */
  ghost predicate Maps(shortIds: seq<ShortId>, slots: seq<Option<Tx>>, m: map<ShortId, nat>, p: nat)
    requires p <= |slots|
  {
    && (forall k :: k in m ==> var i := m[k]; i < p && slots[i].None? && Empty(slots, i) < |shortIds| && shortIds[Empty(slots, i)] == k)
    && (forall i :: 0 <= i < p && slots[i].None? && Empty(slots, i) < |shortIds| ==> shortIds[Empty(slots, i)] in m)
  }

  lemma {:induction false} MapsMore(shortIds: seq<ShortId>, slots: seq<Option<Tx>>, m: map<ShortId, nat>, p: nat)
    requires p < |slots| && Maps(shortIds, slots, m, p) && slots[p].None? && Empty(slots, p) < |shortIds|
    ensures Maps(shortIds, slots, m[shortIds[Empty(slots, p)] := p], p + 1)
  {
  }

  lemma {:induction false} MapsSkip(shortIds: seq<ShortId>, slots: seq<Option<Tx>>, m: map<ShortId, nat>, p: nat)
    requires p < |slots| && Maps(shortIds, slots, m, p) && slots[p].Some?
    ensures Maps(shortIds, slots, m, p + 1)
  {
  }

  lemma {:induction false} KeysMore(shortIds: seq<ShortId>, m: map<ShortId, nat>, i: nat, p: nat)
    requires i < |shortIds| && m.Keys == Elements(shortIds[..i])
    ensures m[shortIds[i] := p].Keys == Elements(shortIds[..i + 1])
  {
    assert shortIds[..i + 1] == shortIds[..i] + [shortIds[i]];
    ElementsMore(shortIds[..i], shortIds[i]);
  }

  /** The short ids do not repeat, and no insertion meets an overfull bucket. */
  ghost predicate Mappable(env: Env, shortIds: seq<ShortId>) {
    NoRepeats(shortIds) && forall i :: 0 <= i < |shortIds| ==> !env.crowded(i)
  }

  lemma {:induction false} NothingMapped(shortIds: seq<ShortId>, slots: seq<Option<Tx>>)
    ensures Maps(shortIds, slots, map[], 0) && Empty(slots, 0) == 0 && Elements(shortIds[..0]) == {}
  {
  }

  lemma {:induction false} EmptyStep(slots: seq<Option<Tx>>, p: nat)
    requires p < |slots|
    ensures Empty(slots, p + 1) == Empty(slots, p) + (if slots[p].None? then 1 else 0)
  {
  }

  lemma {:induction false} AllMapped(shortIds: seq<ShortId>, slots: seq<Option<Tx>>, m: map<ShortId, nat>, p: nat)
    requires p <= |slots| && Maps(shortIds, slots, m, p) && Empty(slots, p) == Empty(slots, |slots|) == |shortIds|
    ensures Maps(shortIds, slots, m, |slots|)
  {
    forall i | p <= i < |slots| ensures slots[i].Some? {
      EmptyMonotone(slots, p, i);
      EmptyMonotone(slots, i, |slots|);
    }
  }

  /** With ids that do not repeat, the map sends an empty slot's id back to the slot. */
  lemma {:induction false} OneSlot(shortIds: seq<ShortId>, placed: seq<Option<Tx>>, m: map<ShortId, nat>, i: nat)
    requires Maps(shortIds, placed, m, |placed|) && NoRepeats(shortIds)
    requires i < |placed| && placed[i].None? && Empty(placed, i) < |shortIds|
    ensures var k := shortIds[Empty(placed, i)]; k in m && m[k] == i
  {
    var k := shortIds[Empty(placed, i)];
    var j := m[k];
    if j < i {
      EmptyMonotone(placed, j, i);
    } else if i < j {
      EmptyMonotone(placed, i, j);
    }
  }

  // ---------- one transaction ----------

  /** The state of the loops: the slots, which of them have been matched, and the count. */
  datatype Match = Match(slots: seq<Option<Tx>>, have: seq<bool>, count: int)

  /** What the loops keep, for the transactions seen so far: every slot is right, and the count has grown by the
      number of slots filled. */
  ghost predicate Matching(env: Env, shortIds: seq<ShortId>, placed: seq<Option<Tx>>, base: int, s: Match, seen: set<Tx>) {
    && |s.slots| == |placed| == |s.have|
    && s.count == base + |shortIds| - Empty(s.slots, |s.slots|)
    && forall i :: 0 <= i < |placed| ==> SlotOk(env, shortIds, placed, s.slots[i], s.have[i], i, seen)
  }

  ghost predicate SlotOk(env: Env, shortIds: seq<ShortId>, placed: seq<Option<Tx>>, slot: Option<Tx>, have: bool, i: nat, seen: set<Tx>)
    requires i < |placed|
  {
    if placed[i].Some? then slot == placed[i] && !have
    else
      && (!have ==> slot.None?)
      && (slot.Some? ==> slot.value in seen && Empty(placed, i) < |shortIds| && shortIds[Empty(placed, i)] == env.Id(slot.value))
  }

  /** Nothing that was seen has been lost: an empty slot's id is that of no transaction seen. */
  ghost predicate Complete(env: Env, shortIds: seq<ShortId>, placed: seq<Option<Tx>>, s: Match, seen: set<Tx>) {
    && |s.slots| == |placed| == |s.have|
    && (forall i :: 0 <= i < |placed| && placed[i].None? && s.have[i] ==> s.slots[i].Some?)
    && (forall i, t :: 0 <= i < |placed| && placed[i].None? && t in seen && Empty(placed, i) < |shortIds| && shortIds[Empty(placed, i)] == env.Id(t) ==> s.have[i])
  }

  /** One transaction of the pool (or, with extra set, of the extra list). A second match for a slot empties
      it, unless an extra transaction has the same witness hash. */
  function Consider(env: Env, m: map<ShortId, nat>, s: Match, tx: Tx, extra: bool): (r: Match)
    requires |s.slots| == |s.have| && forall k :: k in m ==> m[k] < |s.slots|
    ensures |r.slots| == |s.slots| && |r.have| == |s.have|
  {
    var id := env.Id(tx);
    if id !in m then s
    else
      var i := m[id];
      if !s.have[i] then Match(s.slots[i := Some(tx)], s.have[i := true], s.count + 1)
      else if s.slots[i].Some? && (!extra || env.hash(s.slots[i].value) != env.hash(tx)) then
        Match(s.slots[i := None], s.have, s.count - 1)
      else s
  }

  lemma {:induction false} ConsiderKeeps(env: Env, shortIds: seq<ShortId>, placed: seq<Option<Tx>>, base: int, m: map<ShortId, nat>, s: Match, tx: Tx, extra: bool, seen: set<Tx>)
    requires Maps(shortIds, placed, m, |placed|)
    requires Matching(env, shortIds, placed, base, s, seen)
    requires forall k :: k in m ==> m[k] < |s.slots|
    ensures var r := Consider(env, m, s, tx, extra);
      Matching(env, shortIds, placed, base, r, seen + {tx})
  {
    hide Empty;
    var id := env.Id(tx);
    if id in m {
      var i := m[id];
      assert SlotOk(env, shortIds, placed, s.slots[i], s.have[i], i, seen);
      EmptyUpdate(s.slots, i, Some(tx), |s.slots|);
      EmptyUpdate(s.slots, i, None, |s.slots|);
    }
    var r := Consider(env, m, s, tx, extra);
    forall j | 0 <= j < |placed| ensures SlotOk(env, shortIds, placed, r.slots[j], r.have[j], j, seen + {tx}) {
      assert SlotOk(env, shortIds, placed, s.slots[j], s.have[j], j, seen);
    }
  }

  lemma {:induction false} ConsiderComplete(env: Env, shortIds: seq<ShortId>, placed: seq<Option<Tx>>, base: int, m: map<ShortId, nat>, s: Match, tx: Tx, extra: bool, seen: set<Tx>)
    requires Maps(shortIds, placed, m, |placed|) && NoRepeats(shortIds)
    requires Matching(env, shortIds, placed, base, s, seen)
    requires Complete(env, shortIds, placed, s, seen)
    requires forall k :: k in m ==> m[k] < |s.slots|
    requires Distinct(env, seen + {tx}) && (extra || tx !in seen)
    ensures var r := Consider(env, m, s, tx, extra);
      Complete(env, shortIds, placed, r, seen + {tx})
  {
    hide Empty;
    var id, r := env.Id(tx), Consider(env, m, s, tx, extra);
    if id in m {
      var i := m[id];
      assert SlotOk(env, shortIds, placed, s.slots[i], s.have[i], i, seen);
      if s.have[i] {
        SameTransaction(env, seen, tx, s.slots[i].value);
      }
    }
    forall i, t | 0 <= i < |placed| && placed[i].None? && t in seen + {tx} && Empty(placed, i) < |shortIds|
      && shortIds[Empty(placed, i)] == env.Id(t)
      ensures r.have[i]
    {
      if t == tx {
        OneSlot(shortIds, placed, m, i);
      }
    }
  }

  lemma {:induction false} SameTransaction(env: Env, seen: set<Tx>, tx: Tx, other: Tx)
    requires Distinct(env, seen + {tx}) && other in seen && env.Id(other) == env.Id(tx)
    ensures other == tx
  {
  }

  // ---------- whole scans ----------

  /** A scan of a list of transactions. It ends early when the count equals the number of short ids. */
  function Scanned(env: Env, m: map<ShortId, nat>, s: Match, txs: seq<Tx>, extra: bool): (r: Match)
    requires |s.slots| == |s.have| && forall k :: k in m ==> m[k] < |s.slots|
    ensures |r.slots| == |s.slots| && |r.have| == |s.have|
    decreases |txs|
  {
    if txs == [] then s
    else
      var t := Consider(env, m, s, txs[0], extra);
      if t.count == |m| then t else Scanned(env, m, t, txs[1..], extra)
  }

  /** Transactions with distinct short ids, none of them a second time unless in the extra list. */
  ghost predicate Tidy(env: Env, seen: set<Tx>, txs: seq<Tx>, extra: bool) {
    && Distinct(env, seen + Elements(txs))
    && (extra || (NoRepeats(txs) && forall t :: t in txs ==> t !in seen))
  }

  /** Nothing that was seen has been lost, or (if that is allowed for) every slot is filled. */
  ghost predicate Thorough(env: Env, shortIds: seq<ShortId>, placed: seq<Option<Tx>>, s: Match, seen: set<Tx>, orFull: bool) {
    || Complete(env, shortIds, placed, s, seen)
    || (orFull && Empty(s.slots, |s.slots|) == 0)
  }

  /** The counts to start from with which an early exit means that every slot is filled: none, or one so high
      that there is no early exit. */
  predicate Steady(base: int, shortIds: seq<ShortId>) {
    base == 0 || base > |shortIds|
  }

  lemma {:induction false} TidyFirst(env: Env, seen: set<Tx>, txs: seq<Tx>, extra: bool)
    requires Tidy(env, seen, txs, extra) && txs != []
    ensures Distinct(env, seen + {txs[0]}) && (extra || txs[0] !in seen)
    ensures Tidy(env, seen + {txs[0]}, txs[1..], extra)
    ensures seen + {txs[0]} + Elements(txs[1..]) == seen + Elements(txs)
  {
    ElementsFirst(seen, txs);
    forall t | t in seen + {txs[0]} ensures t in seen + Elements(txs) {
    }
  }

  lemma {:induction false} ElementsFirst(seen: set<Tx>, txs: seq<Tx>)
    requires txs != []
    ensures seen + {txs[0]} + Elements(txs[1..]) == seen + Elements(txs)
    ensures txs[0] in Elements(txs)
  {
    assert txs == [txs[0]] + txs[1..];
    forall t ensures t in seen + {txs[0]} + Elements(txs[1..]) <==> t in seen + Elements(txs) {
    }
  }

  lemma {:induction false} InRange(env: Env, shortIds: seq<ShortId>, placed: seq<Option<Tx>>, base: int, m: map<ShortId, nat>, s: Match, seen: set<Tx>)
    requires Maps(shortIds, placed, m, |placed|) && Matching(env, shortIds, placed, base, s, seen)
    ensures |s.slots| == |s.have| == |placed| && forall k :: k in m ==> m[k] < |s.slots|
  {
  }

  lemma {:induction false} ConsiderThorough(env: Env, shortIds: seq<ShortId>, placed: seq<Option<Tx>>, base: int, m: map<ShortId, nat>, s: Match, tx: Tx, extra: bool, seen: set<Tx>)
    requires Maps(shortIds, placed, m, |placed|) && NoRepeats(shortIds)
    requires Matching(env, shortIds, placed, base, s, seen)
    requires Thorough(env, shortIds, placed, s, seen, extra)
    requires forall k :: k in m ==> m[k] < |s.slots|
    requires Distinct(env, seen + {tx}) && (extra || tx !in seen)
    ensures Thorough(env, shortIds, placed, Consider(env, m, s, tx, extra), seen + {tx}, extra)
  {
    hide Empty, Complete;
    if Complete(env, shortIds, placed, s, seen) {
      ConsiderComplete(env, shortIds, placed, base, m, s, tx, extra, seen);
    } else if env.Id(tx) in m {
      var i := m[env.Id(tx)];
      FullSlot(s.slots, i);
      assert SlotOk(env, shortIds, placed, s.slots[i], s.have[i], i, seen);
      SameTransaction(env, seen, tx, s.slots[i].value);
    }
  }

  lemma {:induction false} FullSlot(slots: seq<Option<Tx>>, i: nat)
    requires i < |slots| && Empty(slots, |slots|) == 0
    ensures slots[i].Some?
  {
    EmptyMonotone(slots, i, |slots|);
  }

  /** Filling slots only makes fewer of them empty. */
  lemma {:induction false} FewerEmpty(env: Env, shortIds: seq<ShortId>, placed: seq<Option<Tx>>, base: int, s: Match, seen: set<Tx>)
    requires Matching(env, shortIds, placed, base, s, seen) && Empty(placed, |placed|) == |shortIds|
    ensures Empty(s.slots, |s.slots|) <= |shortIds| && s.count >= base
  {
    forall i | 0 <= i < |placed| && s.slots[i].None? ensures placed[i].None? {
      assert SlotOk(env, shortIds, placed, s.slots[i], s.have[i], i, seen);
    }
    EmptyLess(s.slots, placed, |placed|);
  }

  lemma {:induction false} EmptyLess(a: seq<Option<Tx>>, b: seq<Option<Tx>>, n: nat)
    requires n <= |a| && n <= |b| && forall i :: 0 <= i < n && a[i].None? ==> b[i].None?
    ensures Empty(a, n) <= Empty(b, n)
  {
    if n > 0 {
      EmptyLess(a, b, n - 1);
    }
  }

  lemma {:induction false} MatchingMore(env: Env, shortIds: seq<ShortId>, placed: seq<Option<Tx>>, base: int, s: Match, seen: set<Tx>, all: set<Tx>)
    requires Matching(env, shortIds, placed, base, s, seen) && seen <= all
    ensures Matching(env, shortIds, placed, base, s, all)
  {
    hide Empty;
    forall j | 0 <= j < |placed| ensures SlotOk(env, shortIds, placed, s.slots[j], s.have[j], j, all) {
      assert SlotOk(env, shortIds, placed, s.slots[j], s.have[j], j, seen);
    }
  }

  /** An early exit from a steady count leaves no slot empty. */
  lemma {:induction false} ExitFull(env: Env, shortIds: seq<ShortId>, placed: seq<Option<Tx>>, base: int, s: Match, seen: set<Tx>, all: set<Tx>)
    requires Matching(env, shortIds, placed, base, s, seen) && Empty(placed, |placed|) == |shortIds|
    requires Steady(base, shortIds) && s.count == |shortIds|
    ensures Thorough(env, shortIds, placed, s, all, true)
  {
    hide Empty, Complete;
    FewerEmpty(env, shortIds, placed, base, s, seen);
  }

  /** A scan keeps the slots and the count right; from a steady count it loses nothing that is at hand. */
  lemma {:induction false} ScannedKeeps(env: Env, shortIds: seq<ShortId>, placed: seq<Option<Tx>>, base: int, m: map<ShortId, nat>, s: Match, txs: seq<Tx>, extra: bool, seen: set<Tx>)
    requires Maps(shortIds, placed, m, |placed|) && |m| == |shortIds| == Empty(placed, |placed|) && NoRepeats(shortIds)
    requires Matching(env, shortIds, placed, base, s, seen)
    requires forall k :: k in m ==> m[k] < |s.slots|
    ensures Matching(env, shortIds, placed, base, Scanned(env, m, s, txs, extra), seen + Elements(txs))
    ensures Steady(base, shortIds) && Tidy(env, seen, txs, extra) && Thorough(env, shortIds, placed, s, seen, extra)
      ==> Thorough(env, shortIds, placed, Scanned(env, m, s, txs, extra), seen + Elements(txs), true)
    decreases |txs|
  {
    hide Empty, Maps, Matching, Consider, Tidy, Thorough, NoRepeats, Steady, Distinct;
    InRange(env, shortIds, placed, base, m, s, seen);
    if txs == [] {
      assert seen + Elements(txs) == seen;
      ThoroughEnd(env, shortIds, placed, s, seen, extra);
    } else {
      var t := Consider(env, m, s, txs[0], extra);
      ConsiderKeeps(env, shortIds, placed, base, m, s, txs[0], extra, seen);
      ElementsFirst(seen, txs);
      var tidy := Steady(base, shortIds) && Tidy(env, seen, txs, extra) && Thorough(env, shortIds, placed, s, seen, extra);
      if tidy {
        TidyFirst(env, seen, txs, extra);
        ConsiderThorough(env, shortIds, placed, base, m, s, txs[0], extra, seen);
      }
      if t.count == |m| {
        MatchingMore(env, shortIds, placed, base, t, seen + {txs[0]}, seen + Elements(txs));
        if tidy {
          ExitFull(env, shortIds, placed, base, t, seen + {txs[0]}, seen + Elements(txs));
        }
      } else {
        ScannedKeeps(env, shortIds, placed, base, m, t, txs[1..], extra, seen + {txs[0]});
      }
    }
  }

  lemma {:induction false} ThoroughEnd(env: Env, shortIds: seq<ShortId>, placed: seq<Option<Tx>>, s: Match, seen: set<Tx>, extra: bool)
    ensures Thorough(env, shortIds, placed, s, seen, extra) ==> Thorough(env, shortIds, placed, s, seen, true)
  {
  }

  // ---------- the pool, then the extra transactions ----------

  function Unmatched(placed: seq<Option<Tx>>, base: int): (s: Match)
    ensures |s.slots| == |placed| == |s.have|
  {
    Match(placed, seq(|placed|, _ => false), base)
  }

  /** The slots and the count after both scans, from a count of base. */
  function ScannedBoth(env: Env, m: map<ShortId, nat>, placed: seq<Option<Tx>>, base: int, pool: seq<Tx>, extra: seq<Tx>): (r: Match)
    requires forall k :: k in m ==> m[k] < |placed|
    ensures |r.slots| == |placed| && |r.have| == |placed|
  {
    Scanned(env, m, Scanned(env, m, Unmatched(placed, base), pool, false), extra, true)
  }

  lemma {:induction false} StartMatching(env: Env, shortIds: seq<ShortId>, placed: seq<Option<Tx>>, base: int)
    requires Empty(placed, |placed|) == |shortIds|
    ensures Matching(env, shortIds, placed, base, Unmatched(placed, base), {})
    ensures Thorough(env, shortIds, placed, Unmatched(placed, base), {}, false)
  {
  }

  lemma {:induction false} TidyBoth(env: Env, pool: seq<Tx>, extra: seq<Tx>)
    ensures Distinct(env, Elements(pool) + Elements(extra)) && NoRepeats(pool) ==>
      Tidy(env, {}, pool, false) && Tidy(env, {} + Elements(pool), extra, true)
  {
    assert {} + Elements(pool) == Elements(pool);
  }

  /** Every empty slot is one for which there is no transaction. */
  ghost predicate Exhaustive(env: Env, cb: CompactBlock, slots: seq<Option<Tx>>, txs: set<Tx>)
    requires Fit(cb, |cb.prefilled|)
  {
    var placed := Placed(cb, |cb.prefilled|);
    |slots| == |placed| && forall i, t :: 0 <= i < |slots| && slots[i].None? && t in txs && Empty(placed, i) < |cb.shortIds| ==>
      cb.shortIds[Empty(placed, i)] != env.Id(t)
  }

  lemma {:induction false} MatchingDone(env: Env, cb: CompactBlock, base: int, s: Match, txs: set<Tx>)
    requires Fit(cb, |cb.prefilled|)
    requires Matching(env, cb.shortIds, Placed(cb, |cb.prefilled|), base, s, txs)
    ensures Matched(env, cb, s.slots, txs) && s.count == base + |cb.shortIds| - Empty(s.slots, |s.slots|)
    ensures Thorough(env, cb.shortIds, Placed(cb, |cb.prefilled|), s, txs, true) ==> Exhaustive(env, cb, s.slots, txs)
  {
    hide Empty, Placed;
    var placed := Placed(cb, |cb.prefilled|);
    forall i | 0 <= i < |placed| ensures SlotOk(env, cb.shortIds, placed, s.slots[i], s.have[i], i, txs) {
    }
    if Thorough(env, cb.shortIds, placed, s, txs, true) {
      forall i, t | 0 <= i < |s.slots| && s.slots[i].None? && t in txs && Empty(placed, i) < |cb.shortIds|
        ensures cb.shortIds[Empty(placed, i)] != env.Id(t)
      {
        if Empty(s.slots, |s.slots|) == 0 {
          FullSlot(s.slots, i);
        }
      }
    }
  }

  /** Pool and extra transactions that can be told apart by their short ids, the pool without repetitions. */
  ghost predicate Apart(env: Env, pool: seq<Tx>, extra: seq<Tx>) {
    Distinct(env, Elements(pool) + Elements(extra)) && NoRepeats(pool)
  }

  /** After both scans the slots match, the count has grown by the number of slots filled, and from a steady
      count no transaction at hand has been missed. */
  lemma {:induction false} BothScans(env: Env, cb: CompactBlock, m: map<ShortId, nat>, base: int, pool: seq<Tx>, extra: seq<Tx>)
    requires Fit(cb, |cb.prefilled|) && NoRepeats(cb.shortIds)
    requires var placed := Placed(cb, |cb.prefilled|);
      Maps(cb.shortIds, placed, m, |placed|) && |m| == |cb.shortIds| == Empty(placed, |placed|)
    ensures forall k :: k in m ==> m[k] < |Placed(cb, |cb.prefilled|)|
    ensures var r := ScannedBoth(env, m, Placed(cb, |cb.prefilled|), base, pool, extra);
      && Matched(env, cb, r.slots, Elements(pool) + Elements(extra))
      && r.count == base + |cb.shortIds| - Empty(r.slots, |r.slots|)
      && (Apart(env, pool, extra) && Steady(base, cb.shortIds) ==> Exhaustive(env, cb, r.slots, Elements(pool) + Elements(extra)))
  {
    hide Empty, Maps, Matching, Thorough, Matched, Exhaustive, Distinct, NoRepeats, Placed, Fit, Tidy, Elements, Scanned, Steady;
    var placed := Placed(cb, |cb.prefilled|);
    var s := Unmatched(placed, base);
    StartMatching(env, cb.shortIds, placed, base);
    InRange(env, cb.shortIds, placed, base, m, s, {});
    ScannedKeeps(env, cb.shortIds, placed, base, m, s, pool, false, {});
    var t := Scanned(env, m, s, pool, false);
    ScannedKeeps(env, cb.shortIds, placed, base, m, t, extra, true, {} + Elements(pool));
    TidyBoth(env, pool, extra);
    assert {} + Elements(pool) + Elements(extra) == Elements(pool) + Elements(extra);
    MatchingDone(env, cb, base, Scanned(env, m, t, extra, true), Elements(pool) + Elements(extra));
  }

  // ---------- the count to start from ----------

  /** A scan that starts below the number of short ids never counts beyond it. */
  lemma {:induction false} CountAtMost(env: Env, m: map<ShortId, nat>, s: Match, txs: seq<Tx>, extra: bool)
    requires |s.slots| == |s.have| && forall k :: k in m ==> m[k] < |s.slots|
    requires s.count < |m|
    ensures Scanned(env, m, s, txs, extra).count <= |m|
    decreases |txs|
  {
    if txs != [] && Consider(env, m, s, txs[0], extra).count != |m| {
      CountAtMost(env, m, Consider(env, m, s, txs[0], extra), txs[1..], extra);
    }
  }

  lemma {:induction false} OwnApart(env: Env, shortIds: seq<ShortId>, own: seq<Tx>, other: Tx)
    requires NoRepeats(shortIds) && |own| == |shortIds| && (forall j :: 0 <= j < |own| ==> env.Id(own[j]) == shortIds[j])
    requires env.Id(other) !in shortIds
    ensures Apart(env, [other] + own, [])
  {
    var pool := [other] + own;
    assert Elements<Tx>([]) == {};
    forall j | 0 <= j < |own| ensures env.Id(own[j]) in shortIds {
      assert shortIds[j] in shortIds;
    }
    forall i, j | 0 <= i < j < |pool| ensures env.Id(pool[i]) != env.Id(pool[j]) {
      assert pool[j] == own[j - 1];
      if i > 0 {
        assert pool[i] == own[i - 1];
      }
    }
    forall a, b | a in Elements(pool) + {} && b in Elements(pool) + {} && env.Id(a) == env.Id(b) ensures a == b {
      var i :| 0 <= i < |pool| && pool[i] == a;
      var j :| 0 <= j < |pool| && pool[j] == b;
    }
  }

  /** With a count to start from that is not steady, a pool that holds the block's own transactions behind one
      other leaves some of them unmatched. */
  lemma {:induction false} UnsteadyMisses(env: Env, cb: CompactBlock, m: map<ShortId, nat>, base: int, own: seq<Tx>, other: Tx)
    requires Fit(cb, |cb.prefilled|) && NoRepeats(cb.shortIds)
    requires var placed := Placed(cb, |cb.prefilled|);
      Maps(cb.shortIds, placed, m, |placed|) && |m| == |cb.shortIds| == Empty(placed, |placed|)
    requires |own| == |cb.shortIds| && (forall j :: 0 <= j < |own| ==> env.Id(own[j]) == cb.shortIds[j])
    requires env.Id(other) !in cb.shortIds && 0 < base <= |cb.shortIds|
    ensures Apart(env, [other] + own, [])
    ensures forall k :: k in m ==> m[k] < |Placed(cb, |cb.prefilled|)|
    ensures !Exhaustive(env, cb, ScannedBoth(env, m, Placed(cb, |cb.prefilled|), base, [other] + own, []).slots, Elements([other] + own) + Elements([]))
  {
    var pool, placed := [other] + own, Placed(cb, |cb.prefilled|);
    OwnApart(env, cb.shortIds, own, other);
    BothScans(env, cb, m, base, pool, []);
    KeysListed(cb.shortIds, placed, m);
    hide Maps, Consider, Distinct, NoRepeats, Placed, Fit, Exhaustive, Matched, Empty, Apart;
    var s := Unmatched(placed, base);
    PoolCount(env, m, s, own, other);
    var r := ScannedBoth(env, m, placed, base, pool, []);
    StillEmpty(env, cb, r.slots, own, other);
  }

  lemma {:induction false} KeysListed(shortIds: seq<ShortId>, placed: seq<Option<Tx>>, m: map<ShortId, nat>)
    requires Maps(shortIds, placed, m, |placed|)
    ensures forall k :: k in m ==> k in shortIds
  {
  }

  lemma {:induction false} PoolCount(env: Env, m: map<ShortId, nat>, s: Match, own: seq<Tx>, other: Tx)
    requires |s.slots| == |s.have| && forall k :: k in m ==> m[k] < |s.slots|
    requires env.Id(other) !in m && s.count <= |m|
    ensures Scanned(env, m, Scanned(env, m, s, [other] + own, false), [], true).count <= |m|
  {
    var pool := [other] + own;
    assert Consider(env, m, s, pool[0], false) == s;
    assert pool[1..] == own;
    if s.count < |m| {
      CountAtMost(env, m, s, own, false);
    }
  }

  lemma {:induction false} StillEmpty(env: Env, cb: CompactBlock, slots: seq<Option<Tx>>, own: seq<Tx>, other: Tx)
    requires Fit(cb, |cb.prefilled|)
    requires |own| == |cb.shortIds| && (forall j :: 0 <= j < |own| ==> env.Id(own[j]) == cb.shortIds[j])
    requires Matched(env, cb, slots, Elements([other] + own) + Elements([])) && Empty(slots, |slots|) > 0
    requires var placed := Placed(cb, |cb.prefilled|); Empty(placed, |placed|) == |cb.shortIds|
    ensures !Exhaustive(env, cb, slots, Elements([other] + own) + Elements([]))
  {
    hide Placed;
    var placed := Placed(cb, |cb.prefilled|);
    var i := FirstEmpty(slots, |slots|);
    assert placed[i].None?;
    EmptyMonotone(placed, i, |placed|);
    var j := Empty(placed, i);
    assert ([other] + own)[j + 1] == own[j];
    assert own[j] in Elements([other] + own);
  }

  lemma {:induction false} FirstEmpty(slots: seq<Option<Tx>>, n: nat) returns (i: nat)
    requires n <= |slots| && Empty(slots, n) > 0
    ensures i < n && slots[i].None?
  {
    if slots[n - 1].None? {
      i := n - 1;
    } else {
      i := FirstEmpty(slots, n - 1);
    }
  }

  /** The exact condition on the count to start from: no pool and no extra list make the scans miss a
      transaction at hand if and only if the count is zero or exceeds the number of short ids. (For the second
      half there must be transactions with the ids of the message, and one with another id.) */
  lemma {:induction false} SteadyExact(env: Env, cb: CompactBlock, m: map<ShortId, nat>, base: nat, own: seq<Tx>, other: Tx)
    requires Fit(cb, |cb.prefilled|) && NoRepeats(cb.shortIds)
    requires var placed := Placed(cb, |cb.prefilled|);
      Maps(cb.shortIds, placed, m, |placed|) && |m| == |cb.shortIds| == Empty(placed, |placed|)
    requires |own| == |cb.shortIds| && (forall j :: 0 <= j < |own| ==> env.Id(own[j]) == cb.shortIds[j])
    requires env.Id(other) !in cb.shortIds
    ensures forall k :: k in m ==> m[k] < |Placed(cb, |cb.prefilled|)|
    ensures Steady(base, cb.shortIds) <==> forall pool, extra :: Apart(env, pool, extra) ==>
      Exhaustive(env, cb, ScannedBoth(env, m, Placed(cb, |cb.prefilled|), base, pool, extra).slots, Elements(pool) + Elements(extra))
  {
    hide Maps, Distinct, NoRepeats, Placed, Fit, Exhaustive, Matched, Empty, Apart, ScannedBoth;
    BothScans(env, cb, m, base, [], []);
    if Steady(base, cb.shortIds) {
      forall pool, extra | Apart(env, pool, extra)
        ensures Exhaustive(env, cb, ScannedBoth(env, m, Placed(cb, |cb.prefilled|), base, pool, extra).slots, Elements(pool) + Elements(extra))
      {
        BothScans(env, cb, m, base, pool, extra);
      }
    } else {
      UnsteadyMisses(env, cb, m, base, own, other);
    }
  }

  /** The failure at its smallest: a count of one left over, two short ids, both transactions in the pool. The
      scan ends after the first of them with a count of two and a slot empty. */
  lemma {:induction false} LeftOverCount(env: Env)
    requires env.Id(1) == 1 && env.Id(2) == 2
    ensures var r := ScannedBoth(env, map[1 := 0, 2 := 1], [None, None], 1, [1, 2], []);
      r.slots == [Some(1), None] && r.count == 2
  {
    var m, s := map[1 := 0, 2 := 1], Unmatched([None, None], 1);
    var t := Consider(env, m, s, 1, false);
    assert t.slots == [Some(1), None] && t.count == 2;
    assert |m| == 2 by {
      assert m.Keys == {1, 2};
    }
    assert Scanned(env, m, s, [1, 2], false) == t;
    assert Scanned(env, m, t, [], true) == t;
  }

  /** With distinct short ids exactly the transactions at hand need not be requested. */
  lemma {:induction false} RequestsExact(env: Env, cb: CompactBlock, slots: seq<Option<Tx>>, block: seq<Tx>, txs: set<Tx>, i: nat)
    requires Describes(env, cb, block) && Matched(env, cb, slots, txs) && Exhaustive(env, cb, slots, txs)
    requires Distinct(env, Elements(block) + txs) && i < |block|
    ensures |slots| == |block|
    ensures slots[i].Some? <==> block[i] in txs || Placed(cb, |cb.prefilled|)[i].Some?
  {
    hide Empty, Placed;
    SameLength(env, cb, slots, block, txs);
    if slots[i].Some? {
      MatchedRight(env, cb, slots, block, txs, i);
    }
  }
}

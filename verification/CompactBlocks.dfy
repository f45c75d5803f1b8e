/** Compact block relay: a block as prefilled transactions and short ids, and its reconstruction from a pool of
    transactions. The witness hash, the short id of a hash, the null test, the test for an overfull hash bucket
    and the block check are left open. */
module CompactBlocks {
  import opened Options

  const MAX_TRANSACTIONS := 20000000 / (4 * 10)
  const MAX_INDEX := 0xFFFF

  type Tx = nat
  type ShortId = nat

  datatype Env = Env(hash: Tx -> nat, short: nat -> ShortId, isNull: Tx -> bool, crowded: nat -> bool) {
    function Id(tx: Tx): ShortId {
      short(hash(tx))
    }
  }

  /** A prefilled transaction; its index counts from the one before. */
  datatype Prefilled = Prefilled(index: nat, tx: Tx)

  datatype CompactBlock = CompactBlock(headerIsNull: bool, shortIds: seq<ShortId>, prefilled: seq<Prefilled>)

  datatype Status = Ok | Invalid | Failed | CheckFailed

  // ---------- slots ----------

  /** How many of the first n slots are empty. */
  function Empty(slots: seq<Option<Tx>>, n: nat): (r: nat)
    requires n <= |slots|
    ensures r <= n
  {
    if n == 0 then 0 else Empty(slots, n - 1) + (if slots[n - 1].None? then 1 else 0)
  }

  lemma {:induction false} EmptyMonotone(slots: seq<Option<Tx>>, m: nat, n: nat)
    requires m <= n <= |slots|
    ensures Empty(slots, m) <= Empty(slots, n) <= Empty(slots, m) + (n - m)
    ensures m < n && slots[m].None? ==> Empty(slots, m) < Empty(slots, n)
  {
    if m < n {
      EmptyMonotone(slots, m, n - 1);
    }
  }

  lemma {:induction false} EmptyUpdate(slots: seq<Option<Tx>>, i: nat, v: Option<Tx>, n: nat)
    requires i < |slots| && n <= |slots|
    ensures var before, after := (if slots[i].None? then 1 else 0), (if v.None? then 1 else 0);
      Empty(slots[i := v], n) == Empty(slots, n) + (if i < n then after - before else 0)
  {
    if n > 0 {
      EmptyUpdate(slots, i, v, n - 1);
    }
  }

  lemma {:induction false} EmptyAll(slots: seq<Option<Tx>>, n: nat)
    requires n <= |slots| && forall i :: 0 <= i < n ==> slots[i].None?
    ensures Empty(slots, n) == n
  {
    if n > 0 {
      EmptyAll(slots, n - 1);
    }
  }

  // ---------- prefilled transactions ----------

  /** The slot of prefilled transaction number i. */
  function Slot(p: seq<Prefilled>, i: nat): nat
    requires i < |p|
  {
    if i == 0 then p[0].index else Slot(p, i - 1) + p[i].index + 1
  }

  /** The slot of the last of the first n prefilled transactions, or -1. */
  function Last(p: seq<Prefilled>, n: nat): int
    requires n <= |p|
  {
    if n == 0 then -1 else Slot(p, n - 1)
  }

  /** The first n prefilled transactions have slots in the block. */
  predicate Fit(cb: CompactBlock, n: nat)
    requires n <= |cb.prefilled|
  {
    forall i :: 0 <= i < n ==> Slot(cb.prefilled, i) < |cb.shortIds| + |cb.prefilled|
  }

  /** Prefilled transaction number i is not null, and its slot exists: there are short ids or prefilled
      transactions for all slots before it. */
  predicate PrefilledOk(env: Env, cb: CompactBlock, i: nat)
    requires i < |cb.prefilled|
  {
    var at := Slot(cb.prefilled, i);
    !env.isNull(cb.prefilled[i].tx) && at <= MAX_INDEX && at <= |cb.shortIds| + i
  }

  predicate AllPrefilledOk(env: Env, cb: CompactBlock) {
    forall i :: 0 <= i < |cb.prefilled| ==> PrefilledOk(env, cb, i)
  }

  /** The slots with the first n prefilled transactions in them. */
  function Placed(cb: CompactBlock, n: nat): (slots: seq<Option<Tx>>)
    requires n <= |cb.prefilled| && Fit(cb, n)
    ensures |slots| == |cb.shortIds| + |cb.prefilled|
  {
    if n == 0 then seq(|cb.shortIds| + |cb.prefilled|, _ => None)
    else Placed(cb, n - 1)[Slot(cb.prefilled, n - 1) := Some(cb.prefilled[n - 1].tx)]
  }

  /** Each prefilled transaction takes a slot of its own. */
  lemma {:induction false} PlacedEmpty(cb: CompactBlock, n: nat)
    requires n <= |cb.prefilled| && Fit(cb, n)
    ensures forall i :: Last(cb.prefilled, n) < i < |Placed(cb, n)| ==> Placed(cb, n)[i].None?
    ensures Empty(Placed(cb, n), |Placed(cb, n)|) == |cb.shortIds| + |cb.prefilled| - n
  {
    if n == 0 {
      EmptyAll(Placed(cb, 0), |Placed(cb, 0)|);
    } else {
      PlacedEmpty(cb, n - 1);
      EmptyUpdate(Placed(cb, n - 1), Slot(cb.prefilled, n - 1), Some(cb.prefilled[n - 1].tx), |Placed(cb, n - 1)|);
    }
  }

  // ---------- what a compact block stands for ----------

  /** The compact block describes the list of transactions: prefilled ones in their slots, and short ids, in
      order, for the slots that are left. */
  ghost predicate Describes(env: Env, cb: CompactBlock, block: seq<Tx>) {
    && AllPrefilledOk(env, cb)
    && |block| == |cb.shortIds| + |cb.prefilled|
    && Fit(cb, |cb.prefilled|)
    && var placed := Placed(cb, |cb.prefilled|);
      forall i :: 0 <= i < |block| ==>
        if placed[i].Some? then block[i] == placed[i].value
        else Empty(placed, i) < |cb.shortIds| && cb.shortIds[Empty(placed, i)] == env.Id(block[i])
  }

  /** No two of the transactions have the same short id. */
  ghost predicate Distinct(env: Env, txs: set<Tx>) {
    forall a, b :: a in txs && b in txs && env.Id(a) == env.Id(b) ==> a == b
  }

  /** The slots after initialisation: the prefilled ones as they were, and in the others nothing or a
      transaction from the given ones with the short id of that slot. */
  ghost predicate Matched(env: Env, cb: CompactBlock, slots: seq<Option<Tx>>, txs: set<Tx>)
    requires Fit(cb, |cb.prefilled|)
  {
    var placed := Placed(cb, |cb.prefilled|);
    |slots| == |placed| && forall i :: 0 <= i < |placed| ==>
      if placed[i].Some? then slots[i] == placed[i]
      else slots[i].Some? ==>
        && slots[i].value in txs
        && Empty(placed, i) < |cb.shortIds| && cb.shortIds[Empty(placed, i)] == env.Id(slots[i].value)
  }

  function Elements<T>(s: seq<T>): set<T> {
    set t | t in s
  }

  /** With distinct short ids every slot that is filled holds the block's own transaction. */
  lemma {:induction false} MatchedRight(env: Env, cb: CompactBlock, slots: seq<Option<Tx>>, block: seq<Tx>, txs: set<Tx>, i: nat)
    requires Describes(env, cb, block) && Matched(env, cb, slots, txs) && Distinct(env, Elements(block) + txs)
    requires i < |slots| && slots[i].Some?
    ensures |slots| == |block| && slots[i].value == block[i]
  {
    assert block[i] in Elements(block);
  }

  // ---------- filling the block ----------

  /** The block's transactions in the empty slots, in order. */
  function MissingFrom(slots: seq<Option<Tx>>, block: seq<Tx>, n: nat): (r: seq<Tx>)
    requires |slots| == |block| && n <= |slots|
    ensures |r| == Empty(slots, n)
  {
    if n == 0 then []
    else MissingFrom(slots, block, n - 1) + (if slots[n - 1].None? then [block[n - 1]] else [])
  }

  /** The first n transactions: those in the slots, and the missing ones in order. */
  function Filled(slots: seq<Option<Tx>>, missing: seq<Tx>, n: nat): (r: seq<Tx>)
    requires n <= |slots| && Empty(slots, n) <= |missing|
    ensures |r| == n
  {
    if n == 0 then []
    else Filled(slots, missing, n - 1) + [if slots[n - 1].Some? then slots[n - 1].value else missing[Empty(slots, n - 1)]]
  }

  /** The slot for missing transaction number k. */
  function Gap(slots: seq<Option<Tx>>, k: nat, n: nat): (g: nat)
    requires n <= |slots| && k < Empty(slots, n)
    ensures g < n && slots[g].None? && Empty(slots, g) == k
  {
    if Empty(slots, n - 1) > k then Gap(slots, k, n - 1) else n - 1
  }

  /** The slots with everything before number g handed out. */
  function HandedOut(slots: seq<Option<Tx>>, g: nat): (r: seq<Option<Tx>>)
    requires g <= |slots|
    ensures |r| == |slots| && forall i :: 0 <= i < |slots| ==> r[i] == if i < g then None else slots[i]
  {
    seq(g, _ => None) + slots[g..]
  }

  /** After too short a list the object asks for more than before: all transactions before the gap are gone. So
      the list that would have been right is refused then, unless no slot before the gap was filled. */
  lemma {:induction false} RetryNeedsMore(slots: seq<Option<Tx>>, k: nat)
    requires k < Empty(slots, |slots|)
    ensures var g := Gap(slots, k, |slots|);
      && Empty(HandedOut(slots, g), |slots|) == Empty(slots, |slots|) + (g - k)
      && (g > k <==> exists i :: 0 <= i < g && slots[i].Some?)
  {
    var g := Gap(slots, k, |slots|);
    HandedOutEmpty(slots, g, |slots|);
    AllOrSome(slots, g);
  }

  lemma {:induction false} HandedOutEmpty(slots: seq<Option<Tx>>, g: nat, n: nat)
    requires g <= |slots| && n <= |slots|
    ensures Empty(HandedOut(slots, g), n) == if n <= g then n else Empty(slots, n) + g - Empty(slots, g)
  {
    if n > 0 {
      HandedOutEmpty(slots, g, n - 1);
    }
  }

  lemma {:induction false} AllOrSome(slots: seq<Option<Tx>>, n: nat)
    requires n <= |slots|
    ensures Empty(slots, n) < n <==> exists i :: 0 <= i < n && slots[i].Some?
  {
    if n > 0 {
      AllOrSome(slots, n - 1);
    }
  }

  lemma {:induction false} MissingPrefix(slots: seq<Option<Tx>>, block: seq<Tx>, m: nat, n: nat)
    requires |slots| == |block| && m <= n <= |slots|
    ensures MissingFrom(slots, block, m) <= MissingFrom(slots, block, n)
  {
    if m < n {
      MissingPrefix(slots, block, m, n - 1);
    }
  }

  /** Slots that are right, and the block's own transactions for those that are empty, give the block. */
  lemma {:induction false} FilledRight(slots: seq<Option<Tx>>, block: seq<Tx>, n: nat)
    requires |slots| == |block| && n <= |slots|
    requires forall i :: 0 <= i < |slots| && slots[i].Some? ==> slots[i].value == block[i]
    ensures Empty(slots, n) <= |MissingFrom(slots, block, |slots|)|
    ensures Filled(slots, MissingFrom(slots, block, |slots|), n) == block[..n]
  {
    EmptyMonotone(slots, n, |slots|);
    if n > 0 {
      FilledRight(slots, block, n - 1);
      MissingPrefix(slots, block, n, |slots|);
      assert block[..n] == block[..n - 1] + [block[n - 1]];
    }
  }

  /** The whole exchange: if initialisation succeeded and the short ids are distinct over the block and all
      transactions at hand, filling in the block's own transactions for the empty slots rebuilds the block. */
  lemma {:induction false} Rebuilt(env: Env, cb: CompactBlock, slots: seq<Option<Tx>>, block: seq<Tx>, txs: set<Tx>)
    requires Describes(env, cb, block) && Matched(env, cb, slots, txs) && Distinct(env, Elements(block) + txs)
    ensures |slots| == |block|
    ensures var missing := MissingFrom(slots, block, |slots|);
      |missing| == Empty(slots, |slots|) && Filled(slots, missing, |slots|) == block
  {
    hide Describes, Distinct, Empty, Filled, MissingFrom;
    SameLength(env, cb, slots, block, txs);
    forall i | 0 <= i < |slots| && slots[i].Some? ensures slots[i].value == block[i] {
      MatchedRight(env, cb, slots, block, txs, i);
    }
    FilledRight(slots, block, |slots|);
    assert block[..|slots|] == block;
  }

  lemma {:induction false} SameLength(env: Env, cb: CompactBlock, slots: seq<Option<Tx>>, block: seq<Tx>, txs: set<Tx>)
    requires Describes(env, cb, block) && Matched(env, cb, slots, txs)
    ensures |slots| == |block|
  {
  }

  // ---------- making a compact block ----------

  function ShortIds(env: Env, txs: seq<Tx>): (r: seq<ShortId>)
    ensures |r| == |txs| && forall i :: 0 <= i < |txs| ==> r[i] == env.Id(txs[i])
  {
    seq(|txs|, i requires 0 <= i < |txs| => env.Id(txs[i]))
  }

  /** The compact block of a block: the first transaction prefilled, short ids for the others. */
  method MakeCompact(env: Env, block: seq<Tx>) returns (cb: CompactBlock)
    requires block != [] && !env.isNull(block[0])
    ensures cb == CompactBlock(false, ShortIds(env, block[1..]), [Prefilled(0, block[0])])
    ensures Describes(env, cb, block)
  {
    var shortIds: seq<ShortId> := [];
    for i := 1 to |block|
      invariant |shortIds| == i - 1 && forall k :: 0 <= k < |shortIds| ==> shortIds[k] == env.Id(block[k + 1])
    {
      shortIds := shortIds + [env.Id(block[i])];
    }
    cb := CompactBlock(false, shortIds, [Prefilled(0, block[0])]);
    assert shortIds == ShortIds(env, block[1..]);
    FirstPrefilled(env, cb, block);
  }

  lemma {:induction false} FirstPrefilled(env: Env, cb: CompactBlock, block: seq<Tx>)
    requires block != [] && !env.isNull(block[0])
    requires cb == CompactBlock(false, ShortIds(env, block[1..]), [Prefilled(0, block[0])])
    ensures Describes(env, cb, block)
  {
    var p := cb.prefilled;
    assert Slot(p, 0) == 0;
    var none := Placed(cb, 0);
    var placed := Placed(cb, 1);
    assert placed == none[0 := Some(block[0])];
    forall i | 0 <= i < |block|
      ensures if placed[i].Some? then block[i] == placed[i].value
        else Empty(placed, i) < |cb.shortIds| && cb.shortIds[Empty(placed, i)] == env.Id(block[i])
    {
      EmptyUpdate(none, 0, Some(block[0]), i);
      EmptyAll(none, i);
    }
  }
}

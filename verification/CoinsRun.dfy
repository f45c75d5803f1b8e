/** Runs of the cache stack against a stack of plain maps, and the object that updates the caches in place. */
module CoinsRun {
  import opened Options
  import opened CoinsModel
  import opened CoinsProof

  // ---------- the simple form ----------

  /** One plain map of unspent coins per level. */
  type Maps = seq<map<OutPoint, Coin>>

  datatype Op =
    | OpFetch(o: OutPoint)
    | OpAdd(o: OutPoint, coin: Coin, possibleOverwrite: bool)
    | OpSpend(o: OutPoint)
    | OpUncache(o: OutPoint)
    | OpFlush
    | OpSync
    | OpPush
    | OpPop

  function Last(m: Maps): map<OutPoint, Coin>
    requires |m| > 0
  {
    m[|m| - 1]
  }

  /** What an operation means: adds and spends act on the last map, a flush or a sync copies it down. */
  function MapsStep(m: Maps, op: Op): Maps
    requires Legal(m, op)
  {
    match op
    case OpFetch(_) => m
    case OpUncache(_) => m
    case OpAdd(o, coin, _) => if IsUnspendable(coin.out.script) then m else m[|m| - 1 := Last(m)[o := coin]]
    case OpSpend(o) => m[|m| - 1 := Last(m) - {o}]
    case OpFlush => m[|m| - 2 := Last(m)]
    case OpSync => m[|m| - 2 := Last(m)]
    case OpPush => m + [Last(m)]
    case OpPop => m[..|m| - 1]
  }

  /** There is a cache to work on, and an add without overwrite finds no coin. */
  predicate Legal(m: Maps, op: Op) {
    && (if op.OpPush? then |m| > 0 else |m| > 1)
    && (op.OpAdd? ==> !op.coin.IsSpent() && (op.possibleOverwrite || op.o !in Last(m)))
  }

  predicate LegalRun(m: Maps, ops: seq<Op>)
    decreases |ops|
  {
    ops == [] || (Legal(m, ops[0]) && LegalRun(MapsStep(m, ops[0]), ops[1..]))
  }

  function MapsRun(m: Maps, ops: seq<Op>): Maps
    requires LegalRun(m, ops)
    decreases |ops|
  {
    if ops == [] then m else MapsRun(MapsStep(m, ops[0]), ops[1..])
  }

  // ---------- the stack of caches ----------

  ghost function Step(s: Stack, op: Op): Stack
    requires op.OpPush? || |s.caches| > 0
  {
    match op
    case OpFetch(o) => Fetch(s, Top(s), o)
    case OpAdd(o, coin, possibleOverwrite) => AddCoin(s, o, coin, possibleOverwrite).0
    case OpSpend(o) => SpendCoin(s, o).0
    case OpUncache(o) => Uncache(s, o)
    case OpFlush => Flush(s)
    case OpSync => Sync(s)
    case OpPush => s.(caches := s.caches + [Cache(map[], 0)])
    case OpPop => s.(caches := s.caches[..Top(s)])
  }

  function At(m: map<OutPoint, Coin>, o: OutPoint): Option<Coin> {
    if o in m then Some(m[o]) else None
  }

  /** Every level shows what its map holds. */
  ghost predicate Agrees(s: Stack, m: Maps) {
    && |m| == |s.caches| + 1
    && forall n, o :: 0 <= n < |m| ==> Lookup(s, n, o) == At(m[n], o)
  }

  lemma {:induction false} AgreesSameView(s: Stack, t: Stack, m: Maps)
    requires Agrees(s, m) && SameView(s, t)
    ensures Agrees(t, m)
  {
    forall n, o | 0 <= n < |m| ensures Lookup(t, n, o) == At(m[n], o) {
      assert Lookup(s, n, o) == Lookup(t, n, o);
    }
  }

  lemma {:induction false} AgreesTopChanged(s: Stack, t: Stack, m: Maps, o: OutPoint, v: Option<Coin>)
    requires Agrees(s, m) && TopChanged(s, t, o, v)
    ensures Agrees(t, m[|m| - 1 := if v.Some? then Last(m)[o := v.value] else Last(m) - {o}])
  {
    var m' := m[|m| - 1 := if v.Some? then Last(m)[o := v.value] else Last(m) - {o}];
    forall n, x | 0 <= n < |m'| ensures Lookup(t, n, x) == At(m'[n], x) {
      assert Lookup(s, n, x) == At(m[n], x);
    }
  }

  lemma {:induction false} AgreesCaughtUp(s: Stack, t: Stack, m: Maps)
    requires Agrees(s, m) && CaughtUp(s, t)
    ensures |m| > 1 && Agrees(t, m[|m| - 2 := Last(m)])
  {
    var m' := m[|m| - 2 := Last(m)];
    forall n, x | 0 <= n < |m'| ensures Lookup(t, n, x) == At(m'[n], x) {
      assert Lookup(s, n, x) == At(m[n], x);
      assert Lookup(s, |s.caches|, x) == At(Last(m), x);
    }
  }

  lemma {:induction false} PushKeeps(s: Stack, m: Maps)
    requires StackOk(s) && Agrees(s, m)
    ensures StackOk(Step(s, OpPush)) && Agrees(Step(s, OpPush), m + [Last(m)])
  {
    var t := Step(s, OpPush);
    forall n, o | 0 <= n <= |s.caches| ensures Lookup(t, n, o) == Lookup(s, n, o) {
      LookupBelow(s, t, n, o);
    }
    forall n | 0 <= n < |t.caches| ensures LevelOk(t, n) {
      if n < |s.caches| {
        assert LevelOk(s, n);
        forall o | o in t.caches[n].entries ensures EntryOk(t.caches[n].entries[o], Lookup(t, n, o)) {
          assert Lookup(t, n, o) == Lookup(s, n, o);
        }
      }
    }
    forall n, o | 0 <= n < |m + [Last(m)]| ensures Lookup(t, n, o) == At((m + [Last(m)])[n], o) {
      if n == |m| {
        assert Lookup(t, n, o) == Lookup(t, n - 1, o);
      }
    }
  }

  lemma {:induction false} PopKeeps(s: Stack, m: Maps)
    requires StackOk(s) && Agrees(s, m) && |s.caches| > 0
    ensures StackOk(Step(s, OpPop)) && Agrees(Step(s, OpPop), m[..|m| - 1])
  {
    var t := Step(s, OpPop);
    forall n, o | 0 <= n <= |t.caches| ensures Lookup(t, n, o) == Lookup(s, n, o) {
      LookupBelow(s, t, n, o);
    }
    forall n | 0 <= n < |t.caches| ensures LevelOk(t, n) {
      assert LevelOk(s, n);
      forall o | o in t.caches[n].entries ensures EntryOk(t.caches[n].entries[o], Lookup(t, n, o)) {
        assert Lookup(t, n, o) == Lookup(s, n, o);
      }
    }
  }

  lemma {:induction false} TopShows(s: Stack, m: Maps, o: OutPoint)
    requires Agrees(s, m)
    ensures |m| == |s.caches| + 1 && Lookup(s, |s.caches|, o) == At(Last(m), o)
  {
  }

  /** One operation keeps the invariant and the agreement with the maps, and never throws. */
  lemma {:induction false} StepRefines(s: Stack, m: Maps, op: Op)
    requires StackOk(s) && Agrees(s, m) && Legal(m, op)
    ensures op.OpPush? || |s.caches| > 0
    ensures StackOk(Step(s, op)) && Agrees(Step(s, op), MapsStep(m, op))
    ensures op.OpAdd? ==> !AddCoin(s, op.o, op.coin, op.possibleOverwrite).1
    ensures op.OpFlush? || op.OpSync? ==> NothingMisapplied(s)
  {
    hide StackOk, Agrees, Lookup, Fetch, AddCoin, SpendCoin, Uncache, Flush, Sync, SameView, TopChanged, CaughtUp, NothingMisapplied;
    TopShows(s, m, 0);
    match op
    case OpFetch(o) =>
      FetchKeeps(s, Top(s), o);
      AgreesSameView(s, Step(s, op), m);
    case OpAdd(o, coin, possibleOverwrite) =>
      TopShows(s, m, o);
      AddCoinKeeps(s, o, coin, possibleOverwrite);
      if !IsUnspendable(coin.out.script) {
        AgreesTopChanged(s, Step(s, op), m, o, Some(coin));
      }
    case OpSpend(o) =>
      SpendCoinKeeps(s, o);
      AgreesTopChanged(s, Step(s, op), m, o, None);
    case OpUncache(o) =>
      UncacheKeeps(s, o);
      AgreesSameView(s, Step(s, op), m);
    case OpFlush =>
      WriteTopCatchesUp(s);
      FlushKeeps(s);
      AgreesCaughtUp(s, Step(s, op), m);
    case OpSync =>
      WriteTopCatchesUp(s);
      SyncKeeps(s);
      AgreesCaughtUp(s, Step(s, op), m);
    case OpPush => PushKeeps(s, m);
    case OpPop => PopKeeps(s, m);
  }

  ghost function Run(s: Stack, m: Maps, ops: seq<Op>): Stack
    requires StackOk(s) && Agrees(s, m) && LegalRun(m, ops)
    decreases |ops|
  {
    if ops == [] then s else
      StepRefines(s, m, ops[0]);
      Run(Step(s, ops[0]), MapsStep(m, ops[0]), ops[1..])
  }

  /** In every run of legal operations, at any depth of stacking, every level shows what plain maps given the
      same operations hold, and the invariant holds throughout. */
  lemma {:induction false} RunRefines(s: Stack, m: Maps, ops: seq<Op>)
    requires StackOk(s) && Agrees(s, m) && LegalRun(m, ops)
    ensures StackOk(Run(s, m, ops)) && Agrees(Run(s, m, ops), MapsRun(m, ops))
    decreases |ops|
  {
    hide StackOk, Agrees, Step, MapsStep, Legal;
    if ops != [] {
      StepRefines(s, m, ops[0]);
      RunRefines(Step(s, ops[0]), MapsStep(m, ops[0]), ops[1..]);
    }
  }

  /** The stack a program starts with: no cache over a bottom of unspent coins. */
  lemma {:induction false} BareStack(bottom: map<OutPoint, Coin>)
    requires forall o :: o in bottom ==> !bottom[o].IsSpent()
    ensures StackOk(Stack(bottom, [])) && Agrees(Stack(bottom, []), [bottom])
  {
  }
}

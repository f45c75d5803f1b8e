/** The stack of coin caches (src/coins.h, src/coins.cpp) over a plain map of unspent coins. */
module CoinsModel {
  import opened Options

  const OP_RETURN := 0x6a
  const MAX_SCRIPT_SIZE := 10000
  const DIRECT_SCRIPT_SIZE := 28

  type OutPoint = nat

  /** An output; a value of -1 is the null output. */
  datatype TxOut = TxOut(value: int, script: seq<nat>)

  datatype Coin = Coin(out: TxOut, coinBase: bool, height: nat, coinStake: bool) {
    predicate IsSpent() { out.value == -1 }

    function Usage(): nat { ScriptUsage(out.script) }
  }

  const CLEARED := Coin(TxOut(-1, []), false, 0, false)

  /** Short scripts are stored in place; longer ones take a heap block. */
  function ScriptUsage(script: seq<nat>): nat {
    if |script| <= DIRECT_SCRIPT_SIZE then 0 else (|script| + 31) / 16 * 16
  }

  predicate IsUnspendable(script: seq<nat>) {
    (|script| > 0 && script[0] == OP_RETURN) || |script| > MAX_SCRIPT_SIZE
  }

  /** A coin in one cache. Not `dirty`: equal to what the parent shows. `isFresh`: the parent shows no coin. */
  datatype Entry = Entry(coin: Coin, dirty: bool, isFresh: bool)

  datatype Cache = Cache(entries: map<OutPoint, Entry>, usage: int)

  /** caches[0] sits on the bottom map, every other cache on the one before it; the last is the top. */
  datatype Stack = Stack(bottom: map<OutPoint, Coin>, caches: seq<Cache>)

  // ---------- what a level shows ----------

  function Shown(c: Coin): Option<Coin> {
    if c.IsSpent() then None else Some(c)
  }

  /** The coin visible at a level; level 0 is the bottom, level n the n-th cache. */
  function Lookup(s: Stack, level: nat, o: OutPoint): Option<Coin>
    requires level <= |s.caches|
    decreases level
  {
    if level == 0 then (if o in s.bottom then Some(s.bottom[o]) else None)
    else if o in s.caches[level - 1].entries then Shown(s.caches[level - 1].entries[o].coin)
    else Lookup(s, level - 1, o)
  }

  // ---------- the invariant ----------

  /** The allowed combinations of flags, given what the parent shows. */
  ghost predicate EntryOk(e: Entry, parent: Option<Coin>) {
    && (!e.dirty ==> !e.coin.IsSpent() && parent == Some(e.coin))
    && (e.isFresh ==> parent.None?)
    && (e.coin.IsSpent() ==> e.dirty && !e.isFresh && e.coin == CLEARED)
  }

  ghost function Sum(m: map<OutPoint, Entry>): nat
    decreases |m|
  {
    if m == map[] then 0 else
      PickKey(m);
      var k :| k in m;
      m[k].coin.Usage() + Sum(m - {k})
  }

  lemma {:induction false} PickKey(m: map<OutPoint, Entry>)
    requires m != map[]
    ensures exists k :: k in m
  {
    if !exists k :: k in m {
      assert false;
    }
  }

  ghost predicate LevelOk(s: Stack, n: nat)
    requires n < |s.caches|
  {
    var c := s.caches[n];
    && (forall o :: o in c.entries ==> EntryOk(c.entries[o], Lookup(s, n, o)))
    && c.usage == Sum(c.entries)
  }

  ghost predicate StackOk(s: Stack) {
    && (forall o :: o in s.bottom ==> !s.bottom[o].IsSpent())
    && (forall n :: 0 <= n < |s.caches| ==> LevelOk(s, n))
  }

  /** Two stacks of the same height that show the same coins at every level. */
  ghost predicate SameView(s: Stack, t: Stack) {
    && |s.caches| == |t.caches|
    && forall n, o :: 0 <= n <= |s.caches| ==> Lookup(s, n, o) == Lookup(t, n, o)
  }

  // ---------- operations ----------

  /** Stores an entry that a cache does not have yet. */
  function Put(s: Stack, n: nat, o: OutPoint, e: Entry): Stack
    requires n < |s.caches|
  {
    s.(caches := s.caches[n := Cache(s.caches[n].entries[o := e], s.caches[n].usage + e.coin.Usage())])
  }

  /** A copy of the parent's coin; the parent only ever hands out unspent coins. */
  function Fetched(c: Coin): Entry {
    Entry(c, false, c.IsSpent())
  }

  /** Loads a coin into cache n and into the caches below on the way. */
  function Fetch(s: Stack, n: nat, o: OutPoint): (t: Stack)
    requires n < |s.caches|
    ensures |t.caches| == |s.caches|
    decreases n
  {
    if o in s.caches[n].entries then s
    else if n == 0 then (if o in s.bottom then Put(s, 0, o, Fetched(s.bottom[o])) else s)
    else
      var t := Fetch(s, n - 1, o);
      var below := t.caches[n - 1].entries;
      if o in below && !below[o].coin.IsSpent() then Put(t, n, o, Fetched(below[o].coin)) else t
  }

  function Top(s: Stack): nat
    requires |s.caches| > 0
  {
    |s.caches| - 1
  }

  function SetTop(s: Stack, c: Cache): Stack
    requires |s.caches| > 0
  {
    s.(caches := s.caches[Top(s) := c])
  }

  /** The new stack, and whether the call threw. */
  function AddCoin(s: Stack, o: OutPoint, coin: Coin, possibleOverwrite: bool): (Stack, bool)
    requires |s.caches| > 0
  {
    if IsUnspendable(coin.out.script) then (s, false) else
      var c := s.caches[Top(s)];
      var e := if o in c.entries then c.entries[o] else Entry(CLEARED, false, false);
      var usage := if o in c.entries then c.usage - e.coin.Usage() else c.usage;
      if !possibleOverwrite && !e.coin.IsSpent() then (SetTop(s, Cache(c.entries, usage)), true)
      else
        var isFresh := !possibleOverwrite && !e.dirty;
        (SetTop(s, Cache(c.entries[o := Entry(coin, true, e.isFresh || isFresh)], usage + coin.Usage())), false)
  }

  /** The new stack, and the coin that was moved out, if the cache could get hold of an entry. */
  function SpendCoin(s: Stack, o: OutPoint): (Stack, Option<Coin>)
    requires |s.caches| > 0
  {
    var t := Fetch(s, Top(s), o);
    var c := t.caches[Top(t)];
    if o !in c.entries then (t, None) else
      var e := c.entries[o];
      var usage := c.usage - e.coin.Usage();
      if e.isFresh then (SetTop(t, Cache(c.entries - {o}, usage)), Some(e.coin))
      else (SetTop(t, Cache(c.entries[o := Entry(CLEARED, true, false)], usage)), Some(e.coin))
  }

  function Uncache(s: Stack, o: OutPoint): Stack
    requires |s.caches| > 0
  {
    var c := s.caches[Top(s)];
    if o in c.entries && !c.entries[o].dirty && !c.entries[o].isFresh
    then SetTop(s, Cache(c.entries - {o}, c.usage - c.entries[o].coin.Usage()))
    else s
  }

  // ---------- writing a cache to its parent ----------

  /** A child entry that claims a parent without the coin, while the parent has it. */
  predicate Misapplied(parent: Option<Entry>, child: Entry) {
    child.dirty && child.isFresh && parent.Some? && !parent.value.coin.IsSpent()
  }

  /** The parent's entry after a child entry has been written to it. */
  function Merge(parent: Option<Entry>, child: Entry): Option<Entry> {
    if !child.dirty then parent
    else if parent.None? then
      (if child.isFresh && child.coin.IsSpent() then None else Some(Entry(child.coin, true, child.isFresh)))
    else if parent.value.isFresh && child.coin.IsSpent() then None
    else Some(Entry(child.coin, true, parent.value.isFresh))
  }

  function Get(m: map<OutPoint, Entry>, o: OutPoint): Option<Entry> {
    if o in m then Some(m[o]) else None
  }

  /** The outcome for one key, where only the keys in `done` have been written. */
  function MergeAt(parent: map<OutPoint, Entry>, child: map<OutPoint, Entry>, done: set<OutPoint>, o: OutPoint): Option<Entry> {
    if o in child && o in done then Merge(Get(parent, o), child[o]) else Get(parent, o)
  }

  function MergeEntries(parent: map<OutPoint, Entry>, child: map<OutPoint, Entry>, done: set<OutPoint>): map<OutPoint, Entry> {
    map o | o in parent.Keys + child.Keys && MergeAt(parent, child, done, o).Some? :: MergeAt(parent, child, done, o).value
  }

  /** The bottom map after the dirty entries have been written: spent coins are erased. */
  function MergeBottom(bottom: map<OutPoint, Coin>, child: map<OutPoint, Entry>, done: set<OutPoint>): map<OutPoint, Coin> {
    map o | o in bottom.Keys + child.Keys &&
            (if o in child && o in done && child[o].dirty then !child[o].coin.IsSpent() else o in bottom) ::
      if o in child && o in done && child[o].dirty then child[o].coin else bottom[o]
  }

  /** The stack after the top cache has been written to its parent, the top cache itself not yet changed. */
  ghost function WriteTop(s: Stack): Stack
    requires |s.caches| > 0
  {
    var child := s.caches[Top(s)].entries;
    if Top(s) == 0 then s.(bottom := MergeBottom(s.bottom, child, child.Keys))
    else
      var p := s.caches[Top(s) - 1];
      var merged := MergeEntries(p.entries, child, child.Keys);
      s.(caches := s.caches[Top(s) - 1 := Cache(merged, p.usage - Sum(p.entries) + Sum(merged))])
  }

  /** No write of the top cache would be refused. */
  ghost predicate NothingMisapplied(s: Stack)
    requires |s.caches| > 0
  {
    Top(s) > 0 ==>
      forall o :: o in s.caches[Top(s)].entries ==>
        !Misapplied(Get(s.caches[Top(s) - 1].entries, o), s.caches[Top(s)].entries[o])
  }

  ghost function Flush(s: Stack): Stack
    requires |s.caches| > 0
  {
    SetTop(WriteTop(s), Cache(map[], 0))
  }

  /** What is left after a sync: the unspent coins, all of them now equal to the parent's. */
  function Cleaned(m: map<OutPoint, Entry>): map<OutPoint, Entry> {
    map o | o in m && !m[o].coin.IsSpent() :: Entry(m[o].coin, false, false)
  }

  ghost function Sync(s: Stack): Stack
    requires |s.caches| > 0
  {
    var c := s.caches[Top(s)];
    var cleaned := Cleaned(c.entries);
    SetTop(WriteTop(s), Cache(cleaned, c.usage - Sum(c.entries) + Sum(cleaned)))
  }
}

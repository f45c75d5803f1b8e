/** The stack of coin caches shows, at every level and in every run, what a stack of plain maps shows. */
module CoinsProof {
  import opened Options
  import opened CoinsModel

  // ---------- sums ----------

  lemma {:induction false} SumRemove(m: map<OutPoint, Entry>, k: OutPoint)
    requires k in m
    ensures Sum(m) == m[k].coin.Usage() + Sum(m - {k})
    decreases |m|
  {
    PickKey(m);
    var x :| x in m && Sum(m) == m[x].coin.Usage() + Sum(m - {x});
    if x != k {
      SumRemove(m - {x}, k);
      SumRemove(m - {k}, x);
      assert m - {x} - {k} == m - {k} - {x};
    }
  }

  lemma {:induction false} SumPut(m: map<OutPoint, Entry>, k: OutPoint, e: Entry)
    ensures Sum(m[k := e]) == e.coin.Usage() + Sum(m - {k})
    ensures k !in m ==> Sum(m[k := e]) == e.coin.Usage() + Sum(m)
    ensures k in m ==> Sum(m[k := e]) == e.coin.Usage() + Sum(m) - m[k].coin.Usage()
  {
    SumRemove(m[k := e], k);
    assert m[k := e] - {k} == m - {k};
    if k in m {
      SumRemove(m, k);
    } else {
      assert m - {k} == m;
    }
  }

  // ---------- views ----------

  /** What is shown at a level depends only on the levels below it. */
  lemma {:induction false} LookupBelow(s: Stack, t: Stack, level: nat, o: OutPoint)
    requires level <= |s.caches| && level <= |t.caches| && s.bottom == t.bottom
    requires forall k :: 0 <= k < level ==> s.caches[k] == t.caches[k]
    ensures Lookup(s, level, o) == Lookup(t, level, o)
    decreases level
  {
    if level > 0 {
      LookupBelow(s, t, level - 1, o);
    }
  }

  /** If two stacks agree at one level and have the same caches above it, they agree above it. */
  lemma {:induction false} LookupAbove(s: Stack, t: Stack, from: nat, level: nat, o: OutPoint)
    requires from <= level <= |s.caches| && |s.caches| == |t.caches|
    requires Lookup(s, from, o) == Lookup(t, from, o)
    requires forall k :: from <= k < |s.caches| ==> s.caches[k] == t.caches[k]
    ensures Lookup(s, level, o) == Lookup(t, level, o)
    decreases level
  {
    if level > from {
      LookupAbove(s, t, from, level - 1, o);
    }
  }

  /** Replacing cache n by one that shows the same changes no view. */
  lemma {:induction false} ReplaceView(s: Stack, n: nat, c: Cache)
    requires n < |s.caches|
    requires forall o :: (if o in c.entries then Shown(c.entries[o].coin) else Lookup(s, n, o)) == Lookup(s, n + 1, o)
    ensures SameView(s, s.(caches := s.caches[n := c]))
  {
    var t := s.(caches := s.caches[n := c]);
    forall level, o | 0 <= level <= |s.caches| ensures Lookup(s, level, o) == Lookup(t, level, o) {
      LookupBelow(s, t, n, o);
      if level <= n {
        LookupBelow(s, t, level, o);
      } else {
        assert Lookup(t, n + 1, o) == Lookup(s, n + 1, o);
        LookupAbove(s, t, n + 1, level, o);
      }
    }
  }

  lemma {:induction false} ReplaceOk(s: Stack, n: nat, c: Cache)
    requires StackOk(s) && n < |s.caches|
    requires SameView(s, s.(caches := s.caches[n := c]))
    requires forall o :: o in c.entries ==> EntryOk(c.entries[o], Lookup(s, n, o))
    requires c.usage == Sum(c.entries)
    ensures StackOk(s.(caches := s.caches[n := c]))
  {
    var t := s.(caches := s.caches[n := c]);
    forall k | 0 <= k < |t.caches| ensures LevelOk(t, k) {
      assert LevelOk(s, k);
      forall o | o in t.caches[k].entries ensures EntryOk(t.caches[k].entries[o], Lookup(t, k, o)) {
        assert Lookup(t, k, o) == Lookup(s, k, o);
      }
    }
  }

  // ---------- Fetch ----------

  lemma {:induction false} PutKeeps(s: Stack, n: nat, o: OutPoint, coin: Coin)
    requires StackOk(s) && n < |s.caches| && o !in s.caches[n].entries
    requires !coin.IsSpent() && Lookup(s, n, o) == Some(coin)
    ensures StackOk(Put(s, n, o, Fetched(coin))) && SameView(s, Put(s, n, o, Fetched(coin)))
  {
    var c := Put(s, n, o, Fetched(coin)).caches[n];
    assert LevelOk(s, n);
    SumPut(s.caches[n].entries, o, Fetched(coin));
    ReplaceView(s, n, c);
    ReplaceOk(s, n, c);
  }

  lemma {:induction false} SameViewTransitive(s: Stack, t: Stack, u: Stack)
    requires SameView(s, t) && SameView(t, u)
    ensures SameView(s, u)
  {
    forall n, o | 0 <= n <= |s.caches| ensures Lookup(s, n, o) == Lookup(u, n, o) {
      assert Lookup(s, n, o) == Lookup(t, n, o);
    }
  }

  /** Fetching changes no view, and afterwards the cache itself knows what it shows for the coin. */
  lemma {:induction false} FetchKeeps(s: Stack, n: nat, o: OutPoint)
    requires StackOk(s) && n < |s.caches|
    ensures var t := Fetch(s, n, o);
      && StackOk(t) && SameView(s, t)
      && (forall k :: n < k < |s.caches| ==> t.caches[k] == s.caches[k])
      && (if o in t.caches[n].entries then Shown(t.caches[n].entries[o].coin) else None) == Lookup(s, n + 1, o)
    decreases n
  {
    hide StackOk, SameView;
    var t := Fetch(s, n, o);
    if o in s.caches[n].entries {
      SelfView(s);
    } else if n == 0 {
      if o in s.bottom {
        BottomUnspent(s, o);
        PutKeeps(s, 0, o, s.bottom[o]);
      } else {
        SelfView(s);
      }
    } else {
      FetchKeeps(s, n - 1, o);
      var b := Fetch(s, n - 1, o);
      var below := b.caches[n - 1].entries;
      ViewAt(s, b, n, o);
      if o in below && !below[o].coin.IsSpent() {
        PutKeeps(b, n, o, below[o].coin);
        SameViewTransitive(s, b, t);
      }
    }
  }

  lemma {:induction false} SelfView(s: Stack)
    ensures SameView(s, s)
  {
  }

  lemma {:induction false} BottomUnspent(s: Stack, o: OutPoint)
    requires StackOk(s) && o in s.bottom
    ensures !s.bottom[o].IsSpent()
  {
  }

  lemma {:induction false} ViewAt(s: Stack, t: Stack, n: nat, o: OutPoint)
    requires SameView(s, t) && n <= |s.caches|
    ensures Lookup(s, n, o) == Lookup(t, n, o)
  {
  }

  // ---------- changes of the top cache ----------

  /** At the top one coin changes to v; nothing else changes, at any level. */
  ghost predicate TopChanged(s: Stack, t: Stack, o: OutPoint, v: Option<Coin>) {
    && |s.caches| == |t.caches| && |s.caches| > 0
    && (forall n, x :: 0 <= n < |s.caches| ==> Lookup(t, n, x) == Lookup(s, n, x))
    && (forall x :: Lookup(t, |t.caches|, x) == if x == o then v else Lookup(s, |s.caches|, x))
  }

  lemma {:induction false} ReplaceTop(s: Stack, c: Cache, o: OutPoint, v: Option<Coin>)
    requires StackOk(s) && |s.caches| > 0
    requires forall x :: (if x in c.entries then Shown(c.entries[x].coin) else Lookup(s, Top(s), x))
                      == if x == o then v else Lookup(s, |s.caches|, x)
    requires forall x :: x in c.entries ==> EntryOk(c.entries[x], Lookup(s, Top(s), x))
    requires c.usage == Sum(c.entries)
    ensures StackOk(SetTop(s, c)) && TopChanged(s, SetTop(s, c), o, v)
  {
    var t := SetTop(s, c);
    forall n, x | 0 <= n < |s.caches| ensures Lookup(t, n, x) == Lookup(s, n, x) {
      LookupBelow(s, t, n, x);
    }
    forall k | 0 <= k < |t.caches| ensures LevelOk(t, k) {
      assert LevelOk(s, k);
      forall x | x in t.caches[k].entries ensures EntryOk(t.caches[k].entries[x], Lookup(t, k, x)) {
        assert Lookup(t, k, x) == Lookup(s, k, x);
      }
    }
  }

  /** The same, without a change of view. */
  lemma {:induction false} ReplaceTopQuietly(s: Stack, c: Cache)
    requires StackOk(s) && |s.caches| > 0
    requires forall x :: (if x in c.entries then Shown(c.entries[x].coin) else Lookup(s, Top(s), x)) == Lookup(s, |s.caches|, x)
    requires forall x :: x in c.entries ==> EntryOk(c.entries[x], Lookup(s, Top(s), x))
    requires c.usage == Sum(c.entries)
    ensures StackOk(SetTop(s, c)) && SameView(s, SetTop(s, c))
  {
    ReplaceView(s, Top(s), c);
    ReplaceOk(s, Top(s), c);
  }

  lemma {:induction false} TopLevel(s: Stack)
    requires StackOk(s) && |s.caches| > 0
    ensures LevelOk(s, Top(s))
  {
  }

  /** The caller's side of AddCoin: unless an overwrite is announced, there is no coin yet. */
  ghost predicate MayAdd(s: Stack, o: OutPoint, coin: Coin, possibleOverwrite: bool)
    requires |s.caches| > 0
  {
    !coin.IsSpent() && (possibleOverwrite || Lookup(s, |s.caches|, o).None?)
  }

  lemma {:induction false} AddCoinKeeps(s: Stack, o: OutPoint, coin: Coin, possibleOverwrite: bool)
    requires StackOk(s) && |s.caches| > 0 && MayAdd(s, o, coin, possibleOverwrite)
    ensures var (t, threw) := AddCoin(s, o, coin, possibleOverwrite);
      && !threw && StackOk(t)
      && (if IsUnspendable(coin.out.script) then t == s else TopChanged(s, t, o, Some(coin)))
  {
    if !IsUnspendable(coin.out.script) {
      TopLevel(s);
      var c := s.caches[Top(s)];
      var t := AddCoin(s, o, coin, possibleOverwrite).0;
      var e := t.caches[Top(s)].entries[o];
      SumPut(c.entries, o, e);
      assert EntryOk(e, Lookup(s, Top(s), o)) by {
        if o in c.entries {
          assert EntryOk(c.entries[o], Lookup(s, Top(s), o));
        }
      }
      ReplaceTop(s, t.caches[Top(s)], o, Some(coin));
    }
  }

  /** Spending makes the coin invisible at the top, and returns it if it was visible. */
  lemma {:induction false} SpendCoinKeeps(s: Stack, o: OutPoint)
    requires StackOk(s) && |s.caches| > 0
    ensures var (t, moved) := SpendCoin(s, o);
      && StackOk(t) && TopChanged(s, t, o, None)
      && (Lookup(s, |s.caches|, o).Some? ==> moved == Lookup(s, |s.caches|, o))
      && (moved.Some? ==> Shown(moved.value) == Lookup(s, |s.caches|, o))
  {
    hide StackOk, SameView, TopChanged, Fetch, Lookup;
    FetchKeeps(s, Top(s), o);
    var f := Fetch(s, Top(s), o);
    ViewAt(s, f, |s.caches|, o);
    SpendFetched(f, o);
    var t := SpendCoin(s, o).0;
    if o in f.caches[Top(f)].entries {
      ViewThenTop(s, f, t, o, None);
    } else {
      ViewThenTop(s, f, f, o, None);
    }
  }

  lemma {:induction false} ViewThenTop(s: Stack, f: Stack, t: Stack, o: OutPoint, v: Option<Coin>)
    requires SameView(s, f) && TopChanged(f, t, o, v)
    ensures TopChanged(s, t, o, v)
  {
    forall n, x | 0 <= n < |s.caches| ensures Lookup(t, n, x) == Lookup(s, n, x) {
      assert Lookup(s, n, x) == Lookup(f, n, x);
    }
    forall x ensures Lookup(t, |t.caches|, x) == if x == o then v else Lookup(s, |s.caches|, x) {
      assert Lookup(s, |s.caches|, x) == Lookup(f, |s.caches|, x);
    }
  }

  lemma {:induction false} SpendFetched(s: Stack, o: OutPoint)
    requires StackOk(s) && |s.caches| > 0
    requires o !in s.caches[Top(s)].entries ==> Lookup(s, |s.caches|, o).None?
    ensures o !in s.caches[Top(s)].entries ==> TopChanged(s, s, o, None)
    ensures o in s.caches[Top(s)].entries ==>
      var c := s.caches[Top(s)];
      var e := c.entries[o];
      var usage := c.usage - e.coin.Usage();
      var t := if e.isFresh then SetTop(s, Cache(c.entries - {o}, usage))
               else SetTop(s, Cache(c.entries[o := Entry(CLEARED, true, false)], usage));
      StackOk(t) && TopChanged(s, t, o, None)
  {
    var c := s.caches[Top(s)];
    if o in c.entries {
      if c.entries[o].isFresh {
        SpendFresh(s, o);
      } else {
        SpendStored(s, o);
      }
    }
  }

  lemma {:induction false} TopLookup(s: Stack)
    requires |s.caches| > 0
    ensures var c := s.caches[Top(s)];
      forall x :: Lookup(s, |s.caches|, x) == if x in c.entries then Shown(c.entries[x].coin) else Lookup(s, Top(s), x)
  {
  }

  lemma {:induction false} SpendFresh(s: Stack, o: OutPoint)
    requires StackOk(s) && |s.caches| > 0 && o in s.caches[Top(s)].entries && s.caches[Top(s)].entries[o].isFresh
    ensures var c := s.caches[Top(s)];
      var t := SetTop(s, Cache(c.entries - {o}, c.usage - c.entries[o].coin.Usage()));
      StackOk(t) && TopChanged(s, t, o, None)
  {
    hide Sum, Lookup, StackOk, TopChanged;
    TopLevel(s);
    TopLookup(s);
    var c := s.caches[Top(s)];
    assert EntryOk(c.entries[o], Lookup(s, Top(s), o));
    SumRemove(c.entries, o);
    ReplaceTop(s, Cache(c.entries - {o}, c.usage - c.entries[o].coin.Usage()), o, None);
  }

  lemma {:induction false} SpendStored(s: Stack, o: OutPoint)
    requires StackOk(s) && |s.caches| > 0 && o in s.caches[Top(s)].entries && !s.caches[Top(s)].entries[o].isFresh
    ensures var c := s.caches[Top(s)];
      var t := SetTop(s, Cache(c.entries[o := Entry(CLEARED, true, false)], c.usage - c.entries[o].coin.Usage()));
      StackOk(t) && TopChanged(s, t, o, None)
  {
    hide Sum, Lookup, StackOk, TopChanged;
    TopLevel(s);
    TopLookup(s);
    var c := s.caches[Top(s)];
    SumPut(c.entries, o, Entry(CLEARED, true, false));
    ReplaceTop(s, Cache(c.entries[o := Entry(CLEARED, true, false)], c.usage - c.entries[o].coin.Usage()), o, None);
  }

  /** Dropping a coin changes no view. Afterwards the cache still has it exactly if the entry was dirty; every other
      entry stays. */
  lemma {:induction false} UncacheKeeps(s: Stack, o: OutPoint)
    requires StackOk(s) && |s.caches| > 0
    ensures StackOk(Uncache(s, o)) && SameView(s, Uncache(s, o))
    ensures var was, now := s.caches[Top(s)].entries, Uncache(s, o).caches[Top(s)].entries;
      && (o in now <==> o in was && was[o].dirty)
      && forall k :: k != o || k in now ==> Get(now, k) == Get(was, k)
  {
    TopLevel(s);
    var c := s.caches[Top(s)];
    if o in c.entries && !c.entries[o].dirty && !c.entries[o].isFresh {
      assert EntryOk(c.entries[o], Lookup(s, Top(s), o));
      SumRemove(c.entries, o);
      ReplaceTopQuietly(s, Uncache(s, o).caches[Top(s)]);
    }
  }

  /** A coin that the cache does not have, added without overwriting and spent again before anything is written, leaves
      no trace. */
  lemma {:induction false} AddSpendForgets(s: Stack, o: OutPoint, coin: Coin)
    requires |s.caches| > 0 && o !in s.caches[Top(s)].entries && !IsUnspendable(coin.out.script)
    ensures var (t, threw) := AddCoin(s, o, coin, false); !threw && |t.caches| > 0 && SpendCoin(t, o) == (s, Some(coin))
  {
    var c := s.caches[Top(s)];
    var e := Entry(coin, true, true);
    assert c.entries[o := e] - {o} == c.entries;
    assert s.caches[Top(s) := Cache(c.entries[o := e], c.usage + coin.Usage())][Top(s) := c] == s.caches;
  }

  /** Fetching adds nothing but clean copies of the coin, on the way down to where it was found. */
  lemma {:induction false} FetchClean(s: Stack, n: nat, o: OutPoint, k: nat)
    requires StackOk(s) && n < |s.caches| && k < |s.caches|
    ensures var was, now := s.caches[k].entries, Fetch(s, n, o).caches[k].entries;
      && (forall x :: x in was ==> x in now && now[x] == was[x])
      && (forall x :: x in now && x !in was ==> x == o && k <= n && !now[x].dirty && !now[x].isFresh)
    ensures Fetch(s, n, o).bottom == s.bottom
    decreases n
  {
    hide StackOk;
    if o !in s.caches[n].entries {
      if n > 0 {
        FetchClean(s, n - 1, o, k);
      } else if o in s.bottom {
        BottomUnspent(s, o);
      }
    }
  }

  // ---------- writing the top cache to its parent ----------

  /** Writing one entry: the parent then shows what the child showed, and its flags are right. A coin that is new to the
      level below stays marked as new, and is forgotten if it is spent, so that it never gets there. */
  lemma {:induction false} MergeShows(parent: Option<Entry>, child: Entry, grandparent: Option<Coin>)
    requires parent.Some? ==> EntryOk(parent.value, grandparent)
    requires EntryOk(child, if parent.Some? then Shown(parent.value.coin) else grandparent)
    ensures !Misapplied(parent, child)
    ensures var m := Merge(parent, child);
      && (if m.Some? then Shown(m.value.coin) else grandparent) == Shown(child.coin)
      && (m.Some? ==> EntryOk(m.value, grandparent))
      && (!child.dirty ==> m == parent)
      && (child.dirty && child.coin.IsSpent() && parent.Some? && parent.value.isFresh ==> m.None?)
      && (child.dirty && child.isFresh && parent.None? ==> m.Some? && m.value.isFresh)
  {
  }

  /** At the parent's level the stack after the write shows what the top showed. */
  ghost predicate BaseCaughtUp(s: Stack, t: Stack) {
    && |s.caches| == |t.caches| && |s.caches| > 0
    && (forall n, o :: 0 <= n < Top(s) ==> Lookup(t, n, o) == Lookup(s, n, o))
    && (forall o :: Lookup(t, Top(s), o) == Lookup(s, |s.caches|, o))
  }

  ghost predicate BelowTopOk(t: Stack)
    requires |t.caches| > 0
  {
    && (forall o :: o in t.bottom ==> !t.bottom[o].IsSpent())
    && (forall n :: 0 <= n < Top(t) ==> LevelOk(t, n))
  }

  lemma {:induction false} WriteToBottom(s: Stack)
    requires StackOk(s) && |s.caches| == 1
    ensures BaseCaughtUp(s, WriteTop(s)) && BelowTopOk(WriteTop(s)) && NothingMisapplied(s)
  {
    assert LevelOk(s, 0);
    var t := WriteTop(s);
    var child := s.caches[0].entries;
    forall o ensures Lookup(t, 0, o) == Lookup(s, 1, o) {
      if o in child {
        assert EntryOk(child[o], Lookup(s, 0, o));
      }
    }
  }

  lemma {:induction false} MergedAt(s: Stack, o: OutPoint)
    requires StackOk(s) && |s.caches| > 1
    ensures var p, child := s.caches[Top(s) - 1].entries, s.caches[Top(s)].entries;
      var m := MergeAt(p, child, child.Keys, o);
      && (o in child ==> !Misapplied(Get(p, o), child[o]))
      && (if m.Some? then Shown(m.value.coin) else Lookup(s, Top(s) - 1, o)) == Lookup(s, |s.caches|, o)
      && (m.Some? ==> EntryOk(m.value, Lookup(s, Top(s) - 1, o)))
  {
    var n := Top(s);
    assert LevelOk(s, n) && LevelOk(s, n - 1);
    var p, child := s.caches[n - 1].entries, s.caches[n].entries;
    if o in p {
      assert EntryOk(p[o], Lookup(s, n - 1, o));
    }
    if o in child {
      assert EntryOk(child[o], Lookup(s, n, o));
      MergeShows(Get(p, o), child[o], Lookup(s, n - 1, o));
    }
  }

  lemma {:induction false} WriteToParent(s: Stack)
    requires StackOk(s) && |s.caches| > 1
    ensures BaseCaughtUp(s, WriteTop(s)) && BelowTopOk(WriteTop(s)) && NothingMisapplied(s)
  {
    var n := Top(s);
    var t := WriteTop(s);
    forall k, o | 0 <= k < n ensures Lookup(t, k, o) == Lookup(s, k, o) {
      LookupBelow(s, t, k, o);
    }
    forall o ensures Lookup(t, n, o) == Lookup(s, |s.caches|, o) {
      MergedAt(s, o);
    }
    forall k | 0 <= k < n ensures LevelOk(t, k) {
      assert LevelOk(s, k);
      forall o | o in t.caches[k].entries ensures EntryOk(t.caches[k].entries[o], Lookup(t, k, o)) {
        assert Lookup(t, k, o) == Lookup(s, k, o);
        MergedAt(s, o);
      }
    }
    forall o | o in s.caches[n].entries ensures !Misapplied(Get(s.caches[n - 1].entries, o), s.caches[n].entries[o]) {
      MergedAt(s, o);
    }
  }

  /** Writing never meets a misapplied FRESH flag, and brings the parent up to the child. */
  lemma {:induction false} WriteTopCatchesUp(s: Stack)
    requires StackOk(s) && |s.caches| > 0
    ensures BaseCaughtUp(s, WriteTop(s)) && BelowTopOk(WriteTop(s)) && NothingMisapplied(s)
  {
    hide StackOk, WriteTop, BaseCaughtUp, BelowTopOk, NothingMisapplied;
    if |s.caches| == 1 {
      WriteToBottom(s);
    } else {
      WriteToParent(s);
    }
  }

  /** After a flush or a sync: the view of the top is unchanged, the parent shows the same, and nothing below
      has changed. */
  ghost predicate CaughtUp(s: Stack, t: Stack) {
    && BaseCaughtUp(s, t)
    && (forall o :: Lookup(t, |t.caches|, o) == Lookup(s, |s.caches|, o))
  }

  /** A top cache of clean copies over a parent that has caught up. */
  lemma {:induction false} CleanTop(s: Stack, w: Stack, c: Cache)
    requires BaseCaughtUp(s, w) && BelowTopOk(w)
    requires forall o :: o in c.entries ==> !c.entries[o].dirty && !c.entries[o].isFresh && !c.entries[o].coin.IsSpent()
    requires forall o :: o in c.entries ==> Lookup(s, |s.caches|, o) == Some(c.entries[o].coin)
    requires c.usage == Sum(c.entries)
    ensures StackOk(SetTop(w, c)) && CaughtUp(s, SetTop(w, c))
  {
    var t := SetTop(w, c);
    forall n, o | 0 <= n <= Top(w) ensures Lookup(t, n, o) == Lookup(w, n, o) {
      LookupBelow(w, t, n, o);
    }
    forall k | 0 <= k < |t.caches| ensures LevelOk(t, k) {
      if k < Top(w) {
        assert LevelOk(w, k);
        forall o | o in t.caches[k].entries ensures EntryOk(t.caches[k].entries[o], Lookup(t, k, o)) {
          assert Lookup(t, k, o) == Lookup(w, k, o);
        }
      } else {
        forall o | o in c.entries ensures EntryOk(c.entries[o], Lookup(t, k, o)) {
          assert Lookup(t, k, o) == Lookup(w, Top(w), o) == Lookup(s, |s.caches|, o);
        }
      }
    }
  }

  /** A flush brings the base up to the child and leaves the child empty, so that it shows the same through its base. */
  lemma {:induction false} FlushKeeps(s: Stack)
    requires StackOk(s) && |s.caches| > 0
    ensures StackOk(Flush(s)) && CaughtUp(s, Flush(s))
    ensures var now := Flush(s).caches[Top(s)]; now.entries == map[] && now.usage == 0
  {
    hide StackOk, WriteTop, BelowTopOk, BaseCaughtUp;
    WriteTopCatchesUp(s);
    BaseHeight(s, WriteTop(s));
    CleanTop(s, WriteTop(s), Cache(map[], 0));
  }

  lemma {:induction false} BaseHeight(s: Stack, t: Stack)
    requires BaseCaughtUp(s, t)
    ensures |s.caches| == |t.caches|
  {
  }

  /** A sync brings the base up to the child and leaves the child with exactly its unspent coins, all of them clean. */
  lemma {:induction false} SyncKeeps(s: Stack)
    requires StackOk(s) && |s.caches| > 0
    ensures StackOk(Sync(s)) && CaughtUp(s, Sync(s))
    ensures var was, now := s.caches[Top(s)].entries, Sync(s).caches[Top(s)].entries;
      && (forall o :: o in now <==> o in was && !was[o].coin.IsSpent())
      && (forall o :: o in now ==> now[o].coin == was[o].coin && !now[o].dirty && !now[o].isFresh)
  {
    TopLevel(s);
    hide StackOk, WriteTop, BelowTopOk, BaseCaughtUp;
    WriteTopCatchesUp(s);
    BaseHeight(s, WriteTop(s));
    var c := s.caches[Top(s)];
    CleanTop(s, WriteTop(s), Cache(Cleaned(c.entries), Sum(Cleaned(c.entries))));
  }
}

/** The caches as objects that change in place. */
module CoinsClass {
  import opened Options
  import opened CoinsModel
  import opened CoinsProof
  import opened CoinsRun

  lemma {:induction false} SameEntries(a: map<OutPoint, Entry>, b: map<OutPoint, Entry>)
    requires forall o :: Get(a, o) == Get(b, o)
    ensures a == b
  {
    forall o ensures o in a.Keys <==> o in b.Keys {
      assert Get(a, o) == Get(b, o);
    }
    forall o | o in a.Keys ensures a[o] == b[o] {
      assert Get(a, o) == Get(b, o);
    }
  }

  lemma {:induction false} MergeEntriesAt(parent: map<OutPoint, Entry>, child: map<OutPoint, Entry>, done: set<OutPoint>, o: OutPoint)
    ensures Get(MergeEntries(parent, child, done), o) == MergeAt(parent, child, done, o)
  {
  }

  /** Writing one more entry. */
  lemma {:induction false} MergeOneMore(parent: map<OutPoint, Entry>, child: map<OutPoint, Entry>, done: set<OutPoint>, o: OutPoint)
    requires o in child && o !in done
    ensures Get(MergeEntries(parent, child, done), o) == Get(parent, o)
    ensures var m := Merge(Get(parent, o), child[o]);
      var sofar := MergeEntries(parent, child, done);
      MergeEntries(parent, child, done + {o}) == if m.Some? then sofar[o := m.value] else sofar - {o}
  {
    var m := Merge(Get(parent, o), child[o]);
    var sofar := MergeEntries(parent, child, done);
    MergeEntriesAt(parent, child, done, o);
    var a, b := MergeEntries(parent, child, done + {o}), if m.Some? then sofar[o := m.value] else sofar - {o};
    forall x ensures Get(a, x) == Get(b, x) {
      MergeEntriesAt(parent, child, done + {o}, x);
      MergeEntriesAt(parent, child, done, x);
    }
    SameEntries(a, b);
  }

  /** The usage counter follows one write. */
  lemma {:induction false} SumFollows(m: map<OutPoint, Entry>, o: OutPoint, e: Option<Entry>)
    ensures Sum(if e.Some? then m[o := e.value] else m - {o})
         == Sum(m) - (if o in m then m[o].coin.Usage() else 0) + (if e.Some? then e.value.coin.Usage() else 0)
  {
    if e.Some? {
      SumPut(m, o, e.value);
    } else if o in m {
      SumRemove(m, o);
    } else {
      assert m - {o} == m;
    }
  }

  class CoinStack {
    var bottom: map<OutPoint, Coin>
    var caches: seq<Cache>

    ghost function View(): Stack
      reads this
    {
      Stack(bottom, caches)
    }

    constructor (bottom: map<OutPoint, Coin>)
      ensures View() == Stack(bottom, [])
    {
      this.bottom := bottom;
      caches := [];
    }

    // ---------- reading ----------

    /** GetCoin of level n: the bottom, or the n-th cache. */
    method GetCoin(n: nat, o: OutPoint) returns (found: bool, coin: Coin)
      requires n <= |caches|
      modifies this
      ensures View() == if n == 0 then old(View()) else Fetch(old(View()), n - 1, o)
      ensures var t := View();
        found == if n == 0 then o in t.bottom else o in t.caches[n - 1].entries && !t.caches[n - 1].entries[o].coin.IsSpent()
      ensures found ==> coin == if n == 0 then bottom[o] else caches[n - 1].entries[o].coin
      decreases n, 1
    {
      if n == 0 {
        found := o in bottom;
        coin := if found then bottom[o] else CLEARED;
      } else {
        FetchCoin(n - 1, o);
        found := o in caches[n - 1].entries && !caches[n - 1].entries[o].coin.IsSpent();
        coin := if o in caches[n - 1].entries then caches[n - 1].entries[o].coin else CLEARED;
      }
    }

    method FetchCoin(n: nat, o: OutPoint)
      requires n < |caches|
      modifies this
      ensures View() == Fetch(old(View()), n, o)
      decreases n, 2
    {
      if o in caches[n].entries {
        return;
      }
      ghost var s := View();
      var found, coin := GetCoin(n, o);
      FetchBelowOnly(s, n, o);
      if found {
        var e := Entry(coin, false, false);
        if coin.IsSpent() {
          e := e.(isFresh := true);
        }
        caches := caches[n := Cache(caches[n].entries[o := e], caches[n].usage + coin.Usage())];
      }
    }

    method HaveCoin(o: OutPoint) returns (have: bool)
      requires |caches| > 0 && StackOk(View())
      modifies this
      ensures View() == Fetch(old(View()), Top(old(View())), o)
      ensures have <==> Lookup(old(View()), |old(View()).caches|, o).Some?
    {
      FetchKeeps(View(), Top(View()), o);
      FetchCoin(|caches| - 1, o);
      var entries := caches[|caches| - 1].entries;
      have := o in entries && !entries[o].coin.IsSpent();
    }

    // ---------- changing the top ----------

    method AddCoin(o: OutPoint, coin: Coin, possibleOverwrite: bool) returns (threw: bool)
      requires |caches| > 0
      modifies this
      ensures (View(), threw) == CoinsModel.AddCoin(old(View()), o, coin, possibleOverwrite)
    {
      if IsUnspendable(coin.out.script) {
        return false;
      }
      var top := |caches| - 1;
      var entries, usage := caches[top].entries, caches[top].usage;
      var inserted := o !in entries;
      if inserted {
        entries := entries[o := Entry(CLEARED, false, false)];
      }
      var e := entries[o];
      if !inserted {
        usage := usage - e.coin.Usage();
      }
      var isFresh := false;
      if !possibleOverwrite {
        if !e.coin.IsSpent() {
          caches := caches[top := Cache(entries, usage)];
          return true;
        }
        isFresh := !e.dirty;
      }
      e := Entry(coin, true, e.isFresh || isFresh);
      ghost var before := caches[top].entries;
      assert entries[o := e] == before[o := e];
      caches := caches[top := Cache(entries[o := e], usage + coin.Usage())];
      return false;
    }

    method SpendCoin(o: OutPoint) returns (moved: Option<Coin>)
      requires |caches| > 0
      modifies this
      ensures (View(), moved) == CoinsModel.SpendCoin(old(View()), o)
    {
      var top := |caches| - 1;
      FetchCoin(top, o);
      var entries, usage := caches[top].entries, caches[top].usage;
      if o !in entries {
        return None;
      }
      usage := usage - entries[o].coin.Usage();
      moved := Some(entries[o].coin);
      if entries[o].isFresh {
        caches := caches[top := Cache(entries - {o}, usage)];
      } else {
        caches := caches[top := Cache(entries[o := Entry(CLEARED, true, entries[o].isFresh)], usage)];
      }
    }

    method Uncache(o: OutPoint)
      requires |caches| > 0
      modifies this
      ensures View() == CoinsModel.Uncache(old(View()), o)
    {
      var top := |caches| - 1;
      var entries := caches[top].entries;
      if o in entries && !entries[o].dirty && !entries[o].isFresh {
        caches := caches[top := Cache(entries - {o}, caches[top].usage - entries[o].coin.Usage())];
      }
    }

    // ---------- writing the top cache to its parent ----------

    /** Writes one entry into a parent cache. */
    static method WriteEntry(p: Cache, o: OutPoint, child: Entry) returns (c: Cache, threw: bool)
      ensures threw <==> Misapplied(Get(p.entries, o), child)
      ensures !threw ==> var m := Merge(Get(p.entries, o), child);
        && c.entries == (if m.Some? then p.entries[o := m.value] else p.entries - {o})
        && c.usage - Sum(c.entries) == p.usage - Sum(p.entries)
    {
      c, threw := p, false;
      ghost var m := Merge(Get(p.entries, o), child);
      SumFollows(p.entries, o, m);
      if !child.dirty {
        assert o in p.entries ==> p.entries[o := p.entries[o]] == p.entries;
        assert o !in p.entries ==> p.entries - {o} == p.entries;
        return;
      }
      if o !in p.entries {
        assert p.entries - {o} == p.entries;
        if !(child.isFresh && child.coin.IsSpent()) {
          c := Cache(p.entries[o := Entry(child.coin, true, child.isFresh)], p.usage + child.coin.Usage());
        }
      } else {
        var us := p.entries[o];
        if child.isFresh && !us.coin.IsSpent() {
          return p, true;
        }
        if us.isFresh && child.coin.IsSpent() {
          c := Cache(p.entries - {o}, p.usage - us.coin.Usage());
        } else {
          c := Cache(p.entries[o := us.(coin := child.coin, dirty := true)], p.usage - us.coin.Usage() + child.coin.Usage());
        }
      }
    }

    /** Writes the entries of a child to cache p, in any order. */
    static method BatchWrite(p: Cache, child: map<OutPoint, Entry>) returns (c: Cache, threw: bool)
      ensures threw <==> exists o :: o in child && Misapplied(Get(p.entries, o), child[o])
      ensures !threw ==> c.entries == MergeEntries(p.entries, child, child.Keys) && c.usage == p.usage - Sum(p.entries) + Sum(c.entries)
    {
      hide Merge, MergeEntries, Misapplied;
      c, threw := p, false;
      var rest := child.Keys;
      MergeNothing(p.entries, child);
      while rest != {}
        invariant rest <= child.Keys
        invariant c.entries == MergeEntries(p.entries, child, child.Keys - rest)
        invariant c.usage - Sum(c.entries) == p.usage - Sum(p.entries)
        invariant forall o :: o in child && o !in rest ==> !Misapplied(Get(p.entries, o), child[o])
        decreases |rest|
      {
        if !exists o :: o in rest {
          assert false;
        }
        var o :| o in rest;
        MergeOneMore(p.entries, child, child.Keys - rest, o);
        c, threw := WriteEntry(c, o, child[o]);
        if threw {
          return;
        }
        assert child.Keys - rest + {o} == child.Keys - (rest - {o});
        rest := rest - {o};
      }
      assert child.Keys - rest == child.Keys;
    }

    /** Writes the dirty entries of a child to the bottom map, in any order. */
    static method BatchWriteBottom(bottom: map<OutPoint, Coin>, child: map<OutPoint, Entry>) returns (b: map<OutPoint, Coin>)
      ensures b == MergeBottom(bottom, child, child.Keys)
    {
      hide MergeBottom;
      b := bottom;
      var rest := child.Keys;
      BottomNothing(bottom, child);
      while rest != {}
        invariant rest <= child.Keys
        invariant b == MergeBottom(bottom, child, child.Keys - rest)
        decreases |rest|
      {
        if !exists o :: o in rest {
          assert false;
        }
        var o :| o in rest;
        BottomOneMore(bottom, child, child.Keys - rest, o);
        if child[o].dirty {
          if child[o].coin.IsSpent() {
            b := b - {o};
          } else {
            b := b[o := child[o].coin];
          }
        }
        assert child.Keys - rest + {o} == child.Keys - (rest - {o});
        rest := rest - {o};
      }
      assert child.Keys - rest == child.Keys;
    }

    /** Writes the top cache to whatever is below it. */
    method WriteTop() returns (threw: bool)
      requires |caches| > 0
      modifies this
      ensures threw <==> !NothingMisapplied(old(View()))
      ensures !threw ==> View() == CoinsModel.WriteTop(old(View()))
    {
      hide MergeEntries, MergeBottom, Misapplied;
      var top := |caches| - 1;
      if top == 0 {
        bottom := BatchWriteBottom(bottom, caches[0].entries);
        return false;
      }
      var c;
      c, threw := BatchWrite(caches[top - 1], caches[top].entries);
      if !threw {
        caches := caches[top - 1 := c];
      }
    }

    method Flush() returns (threw: bool)
      requires |caches| > 0
      modifies this
      ensures threw <==> !NothingMisapplied(old(View()))
      ensures !threw ==> View() == CoinsModel.Flush(old(View()))
    {
      hide CoinsModel.WriteTop, NothingMisapplied;
      WriteTopHeight(View());
      threw := WriteTop();
      if !threw {
        caches := caches[|caches| - 1 := Cache(map[], 0)];
      }
    }

    /** Drops the spent coins and the flags of a cache that has been written. */
    static method Clean(p: Cache) returns (c: Cache)
      ensures c.entries == Cleaned(p.entries) && c.usage == p.usage - Sum(p.entries) + Sum(c.entries)
    {
      c := p;
      var rest := p.entries.Keys;
      while rest != {}
        invariant rest <= p.entries.Keys
        invariant forall o :: Get(c.entries, o) == if o in rest then Get(p.entries, o) else Get(Cleaned(p.entries), o)
        invariant c.usage - Sum(c.entries) == p.usage - Sum(p.entries)
        decreases |rest|
      {
        if !exists o :: o in rest {
          assert false;
        }
        var o :| o in rest;
        assert Get(c.entries, o) == Get(p.entries, o);
        if c.entries[o].coin.IsSpent() {
          SumRemove(c.entries, o);
          c := Cache(c.entries - {o}, c.usage - c.entries[o].coin.Usage());
        } else {
          SumPut(c.entries, o, Entry(c.entries[o].coin, false, false));
          c := Cache(c.entries[o := Entry(c.entries[o].coin, false, false)], c.usage);
        }
        rest := rest - {o};
      }
      SameEntries(c.entries, Cleaned(p.entries));
    }

    method Sync() returns (threw: bool)
      requires |caches| > 0
      modifies this
      ensures threw <==> !NothingMisapplied(old(View()))
      ensures !threw ==> View() == CoinsModel.Sync(old(View()))
    {
      hide CoinsModel.WriteTop, NothingMisapplied;
      WriteTopHeight(View());
      threw := WriteTop();
      if !threw {
        var c := Clean(caches[|caches| - 1]);
        caches := caches[|caches| - 1 := c];
      }
    }

    /** The two assertions of the sanity check, for one cache. */
    method SanityCheck(n: nat) returns (ok: bool)
      requires n < |caches|
      ensures ok <==>
        && (forall o :: o in caches[n].entries ==> Attr(caches[n].entries[o]) !in {2, 4, 7})
        && caches[n].usage == Sum(caches[n].entries)
    {
      var entries := caches[n].entries;
      var rest, usage := entries, 0;
      while rest != map[]
        invariant forall o :: o in rest ==> o in entries && rest[o] == entries[o]
        invariant forall o :: o in entries && o !in rest ==> Attr(entries[o]) !in {2, 4, 7}
        invariant usage + Sum(rest) == Sum(entries)
        decreases |rest|
      {
        PickKey(rest);
        var o :| o in rest;
        SumRemove(rest, o);
        var attr := Attr(rest[o]);
        if attr == 2 || attr == 4 || attr == 7 {
          return false;
        }
        usage := usage + rest[o].coin.Usage();
        rest := rest - {o};
      }
      ok := usage == caches[n].usage;
    }
  }

  /** The bits DIRTY, FRESH and spent of an entry. */
  function Attr(e: Entry): int {
    (if e.dirty then 1 else 0) + (if e.isFresh then 2 else 0) + (if e.coin.IsSpent() then 4 else 0)
  }

  /** In a sound stack the sanity check passes at every level. Of the five documented combinations of flags
      the fourth, a spent coin that is FRESH and not DIRTY, never occurs: a parent does not hand out spent
      coins. */
  lemma {:induction false} SanityHolds(s: Stack, n: nat)
    requires StackOk(s) && n < |s.caches|
    ensures forall o :: o in s.caches[n].entries ==> Attr(s.caches[n].entries[o]) in {0, 1, 3, 5}
    ensures s.caches[n].usage == Sum(s.caches[n].entries)
  {
    assert LevelOk(s, n);
    forall o | o in s.caches[n].entries ensures Attr(s.caches[n].entries[o]) in {0, 1, 3, 5} {
      assert EntryOk(s.caches[n].entries[o], Lookup(s, n, o));
    }
  }

  lemma {:induction false} WriteTopHeight(s: Stack)
    requires |s.caches| > 0
    ensures |CoinsModel.WriteTop(s).caches| == |s.caches|
    ensures CoinsModel.WriteTop(s).caches[Top(s)] == s.caches[Top(s)]
  {
  }

  lemma {:induction false} MergeNothing(parent: map<OutPoint, Entry>, child: map<OutPoint, Entry>)
    ensures MergeEntries(parent, child, child.Keys - child.Keys) == parent
  {
    var a := MergeEntries(parent, child, child.Keys - child.Keys);
    forall o ensures Get(a, o) == Get(parent, o) {
      MergeEntriesAt(parent, child, child.Keys - child.Keys, o);
    }
    SameEntries(a, parent);
  }

  lemma {:induction false} SameCoins(a: map<OutPoint, Coin>, b: map<OutPoint, Coin>)
    requires forall o :: o in a <==> o in b
    requires forall o :: o in a ==> a[o] == b[o]
    ensures a == b
  {
    forall o ensures o in a.Keys <==> o in b.Keys {}
    forall o | o in a.Keys ensures a[o] == b[o] {}
  }

  lemma {:induction false} BottomNothing(bottom: map<OutPoint, Coin>, child: map<OutPoint, Entry>)
    ensures MergeBottom(bottom, child, child.Keys - child.Keys) == bottom
  {
    SameCoins(MergeBottom(bottom, child, child.Keys - child.Keys), bottom);
  }

  lemma {:induction false} BottomOneMore(bottom: map<OutPoint, Coin>, child: map<OutPoint, Entry>, done: set<OutPoint>, o: OutPoint)
    requires o in child && o !in done
    ensures var sofar := MergeBottom(bottom, child, done);
      MergeBottom(bottom, child, done + {o})
      == if !child[o].dirty then sofar else if child[o].coin.IsSpent() then sofar - {o} else sofar[o := child[o].coin]
  {
    var sofar := MergeBottom(bottom, child, done);
    var b := if !child[o].dirty then sofar else if child[o].coin.IsSpent() then sofar - {o} else sofar[o := child[o].coin];
    SameCoins(MergeBottom(bottom, child, done + {o}), b);
  }

  // ---------- the caller's contract is exact ----------

  /** Without an announced overwrite and without a throw, AddCoin keeps the stack sound exactly when no coin
      was visible. */
  lemma {:induction false} AddCoinExact(s: Stack, o: OutPoint, coin: Coin)
    requires StackOk(s) && |s.caches| > 0 && !coin.IsSpent() && !IsUnspendable(coin.out.script)
    requires !AddCoin(s, o, coin, false).1
    ensures StackOk(AddCoin(s, o, coin, false).0) <==> Lookup(s, |s.caches|, o).None?
  {
    var t := AddCoin(s, o, coin, false).0;
    if Lookup(s, |s.caches|, o).None? {
      AddCoinKeeps(s, o, coin, false);
    } else {
      TopLevel(s);
      LookupBelow(s, t, Top(s), o);
      assert !EntryOk(t.caches[Top(s)].entries[o], Lookup(t, Top(s), o));
      assert !LevelOk(t, Top(s));
    }
  }

  /** And when a coin was visible after all, spending the new coin brings the old one back. */
  lemma {:induction false} BrokenContractRevives(s: Stack, o: OutPoint, coin: Coin)
    requires StackOk(s) && |s.caches| > 0 && !coin.IsSpent() && !IsUnspendable(coin.out.script)
    requires !AddCoin(s, o, coin, false).1 && Lookup(s, |s.caches|, o).Some?
    ensures var t := SpendCoin(AddCoin(s, o, coin, false).0, o).0;
      |t.caches| == |s.caches| && Lookup(t, |t.caches|, o) == Lookup(s, |s.caches|, o)
  {
    TopLevel(s);
    var t := SpendCoin(AddCoin(s, o, coin, false).0, o).0;
    LookupBelow(s, t, Top(s), o);
  }

  /** AddCoin throws exactly on an unannounced overwrite of an unspent entry of the top cache, and then no view changes. */
  lemma {:induction false} AddCoinThrows(s: Stack, o: OutPoint, coin: Coin, possibleOverwrite: bool)
    requires |s.caches| > 0
    ensures var (t, threw) := AddCoin(s, o, coin, possibleOverwrite);
      && (threw <==> !possibleOverwrite && !IsUnspendable(coin.out.script) && UnspentAtTop(s, o))
      && (threw ==> SameView(s, t))
  {
    var (t, threw) := AddCoin(s, o, coin, possibleOverwrite);
    if threw {
      forall n, x | 0 <= n <= |s.caches| ensures Lookup(s, n, x) == Lookup(t, n, x) {
        LookupBelow(s, t, Top(s), x);
        if n < |s.caches| {
          LookupBelow(s, t, n, x);
        }
      }
    }
  }

  predicate UnspentAtTop(s: Stack, o: OutPoint)
    requires |s.caches| > 0
  {
    var top := s.caches[|s.caches| - 1].entries;
    o in top && top[o].coin.out.value != -1
  }

  /** Fetching for the sake of a cache leaves that cache alone. */
  lemma {:induction false} FetchAbove(s: Stack, n: nat, k: nat, o: OutPoint)
    requires n < k < |s.caches|
    ensures Fetch(s, n, o).caches[k] == s.caches[k]
    decreases n
  {
    if o !in s.caches[n].entries && n > 0 {
      FetchAbove(s, n - 1, k, o);
    }
  }

  lemma {:induction false} FetchBelowOnly(s: Stack, n: nat, o: OutPoint)
    requires n < |s.caches|
    ensures n > 0 ==> Fetch(s, n - 1, o).caches[n] == s.caches[n]
  {
    if n > 0 {
      FetchAbove(s, n - 1, n, o);
    }
  }
}

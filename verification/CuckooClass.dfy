/** The cache object: three arrays of one entry per slot that insertion, the epoch scan and erasure change in
    place. Each method does what the corresponding function on values says. */
module CuckooClass {
  import opened Options
  import opened Cuckoo

  class Cache<T(==)> {
    const env: Env<T>
    const depthLimit: nat
    const epochSize: nat
    const table: array<T>
    const garbage: array<bool>
    const young: array<bool>
    var counter: nat

    ghost predicate Valid()
      reads this
    {
      && table != young && table != garbage
      && 0 < table.Length < TWO32 && garbage.Length == table.Length && young.Length == table.Length
      && garbage != young
    }

    ghost function View(): (s: State<T>)
      requires Valid()
      reads this, table, garbage, young
      ensures Shaped(s)
    {
      State(table[..], garbage[..], young[..], counter, epochSize)
    }

    /** An empty cache for at least two elements. */
    constructor (env: Env<T>, newSize: nat, depthLimit: nat)
      requires newSize < TWO32
      ensures Valid() && fresh(table) && fresh(garbage) && fresh(young)
      ensures this.env == env && this.depthLimit == depthLimit
      ensures View() == Setup(env, newSize)
    {
      hide EpochSize;
      var size := Max(2, newSize);
      this.env, this.depthLimit, epochSize := env, depthLimit, EpochSize(size);
      table := new T[size](_ => env.initial);
      garbage := new bool[size](_ => true);
      young := new bool[size](_ => false);
      counter := EpochSize(size);
    }

    method LocateElement(locs: seq<nat>, e: T) returns (k: nat)
      requires Valid() && |locs| == 8 && forall i :: 0 <= i < 8 ==> locs[i] < table.Length
      ensures k == FindElement(table[..], locs, e, 0)
    {
      k := 0;
      while k < 8
        invariant k <= 8 && FindElement(table[..], locs, e, 0) == FindElement(table[..], locs, e, k)
      {
        if table[locs[k]] == e {
          return;
        }
        k := k + 1;
      }
    }

    method LocateGarbage(locs: seq<nat>) returns (k: nat)
      requires Valid() && |locs| == 8 && forall i :: 0 <= i < 8 ==> locs[i] < table.Length
      ensures k == FindGarbage(garbage[..], locs, 0)
    {
      k := 0;
      while k < 8
        invariant k <= 8 && FindGarbage(garbage[..], locs, 0) == FindGarbage(garbage[..], locs, k)
      {
        if garbage[locs[k]] {
          return;
        }
        k := k + 1;
      }
    }

    method LocateSlot(locs: seq<nat>, loc: nat) returns (k: nat)
      requires |locs| == 8
      ensures k == FindLocation(locs, loc, 0)
    {
      k := 0;
      while k < 8
        invariant k <= 8 && FindLocation(locs, loc, 0) == FindLocation(locs, loc, k)
      {
        if locs[k] == loc {
          return;
        }
        k := k + 1;
      }
    }

    /** Counts the live entries of the current epoch. */
    method CountYoung() returns (count: nat)
      requires Valid()
      ensures count == Young(View(), table.Length)
    {
      count := 0;
      for i := 0 to table.Length
        invariant count == Young(View(), i)
      {
        if young[i] && !garbage[i] {
          count := count + 1;
        }
      }
    }

    /** Gives up the older entries and makes the current ones the older ones. */
    method Age()
      requires Valid()
      modifies this`counter, garbage, young
      ensures View() == Aged(old(View()))
    {
      ghost var was := View();
      for i := 0 to table.Length
        invariant Valid() && table[..] == was.table
        invariant forall k :: 0 <= k < i ==> !young[k] && garbage[k] == (was.garbage[k] || !was.young[k])
        invariant forall k :: i <= k < table.Length ==> young[k] == was.young[k] && garbage[k] == was.garbage[k]
      {
        if young[i] {
          young[i] := false;
        } else {
          garbage[i] := true;
        }
      }
      counter := epochSize;
      assert garbage[..] == Aged(was).garbage;
      assert young[..] == Aged(was).young;
    }

    method EpochCheck()
      requires Valid()
      modifies this`counter, garbage, young
      ensures View() == Cuckoo.EpochCheck(old(View()))
    {
      hide Aged, Young;
      if counter != 0 {
        counter := counter - 1;
        return;
      }
      var count := CountYoung();
      if count >= epochSize {
        Age();
      } else {
        counter := Max(1, Max(epochSize / 16, epochSize - count));
      }
    }

    method Put(loc: nat, e: T, isYoung: bool)
      requires Valid() && loc < table.Length
      modifies table, garbage, young
      ensures View() == Cuckoo.Put(old(View()), loc, e, isYoung)
    {
      ghost var was := View();
      table[loc] := e;
      garbage[loc] := false;
      young[loc] := isYoung;
      assert table[..] == was.table[loc := e];
      assert garbage[..] == was.garbage[loc := false];
      assert young[..] == was.young[loc := isYoung];
    }

    method Swap(loc: nat, e: T, isYoung: bool) returns (x: T, wasYoung: bool)
      requires Valid() && loc < table.Length
      modifies table, young
      ensures x == old(table[loc]) && wasYoung == old(young[loc])
      ensures View() == Swapped(old(View()), loc, e, isYoung)
    {
      ghost var was := View();
      x, wasYoung := table[loc], young[loc];
      table[loc] := e;
      young[loc] := isYoung;
      assert table[..] == was.table[loc := e];
      assert young[..] == was.young[loc := isYoung];
      assert garbage[..] == was.garbage;
    }

    /** Inserts an element and tells which one had to go, if any. */
    method Insert(element: T) returns (dropped: Option<T>)
      requires Valid()
      modifies this`counter, table, garbage, young
      ensures (View(), dropped) == Cuckoo.Insert(env, old(View()), element, depthLimit)
    {
      hide Locations, Cuckoo.EpochCheck, Displace, FindElement;
      EpochCheck();
      var locs := Locations(env, table.Length, element);
      var found := LocateElement(locs, element);
      if found < 8 {
        Put(locs[found], element, true);
        return None;
      }
      dropped := Chain(element);
    }

    /** The displacement loop. */
    method Chain(element: T) returns (dropped: Option<T>)
      requires Valid()
      modifies table, garbage, young
      ensures (View(), dropped) == Displace(env, old(View()), element, true, INVALID, depthLimit)
    {
      hide Locations, FindGarbage, FindLocation, Cuckoo.Put, Swapped;
      var e, isYoung, last: nat := element, true, INVALID;
      ghost var was := View();
      var depth := 0;
      while depth < depthLimit
        invariant Valid() && depth <= depthLimit
        invariant Displace(env, View(), e, isYoung, last, depthLimit - depth)
          == Displace(env, was, element, true, INVALID, depthLimit)
      {
        var locs := Locations(env, table.Length, e);
        var free := LocateGarbage(locs);
        if free < 8 {
          Put(locs[free], e, isYoung);
          return None;
        }
        var k := LocateSlot(locs, last);
        last := locs[(1 + k) % 8];
        e, isYoung := Swap(last, e, isYoung);
        depth := depth + 1;
      }
      dropped := Some(e);
    }

    method Contains(e: T, erase: bool) returns (r: bool)
      requires Valid()
      modifies garbage
      ensures (View(), r) == Cuckoo.Contains(env, old(View()), e, erase)
    {
      hide Locations, FindElement;
      ghost var was := View();
      var locs := Locations(env, table.Length, e);
      var found := LocateElement(locs, e);
      if found == 8 {
        return false;
      }
      if erase {
        garbage[locs[found]] := true;
        assert garbage[..] == was.garbage[locs[found] := true];
        assert table[..] == was.table && young[..] == was.young;
      }
      return true;
    }
  }
}

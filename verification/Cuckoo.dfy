/** The cuckoo cache: eight candidate slots per element, insertion by a chain of displacements, garbage flags
    instead of erasure, and two generations of entries. */
module Cuckoo {
  import opened Options
  import opened Powers

  const TWO32 := 0x1_0000_0000
  /** An index no slot has. */
  const INVALID := 0xFFFF_FFFF

  /** The eight hashes of an element, and the element that fills a new table. */
  datatype Env<!T> = Env(hash: (T, nat) -> nat, initial: T)

  /** One value per slot: the element, whether it may be overwritten, whether it is of the current epoch. */
  datatype State<T> = State(table: seq<T>, garbage: seq<bool>, young: seq<bool>, counter: nat, epochSize: nat)

  ghost predicate Shaped<T>(s: State<T>) {
    0 < |s.table| < TWO32 && |s.garbage| == |s.table| && |s.young| == |s.table|
  }

  // ---------- locations ----------

  /** Maps a 32-bit hash onto a slot. */
  function FastRange(x: nat, n: nat): (r: nat)
    requires n > 0
    ensures r < n
  {
    var h := x % TWO32;
    Scaled(h, n);
    h * n / TWO32
  }

  lemma {:induction false} Scaled(h: nat, n: nat)
    requires h < TWO32 && n > 0
    ensures 0 <= h * n / TWO32 < n
  {
    MulLe(n, h + 1, TWO32);
    Below(h * n, n);
  }

  lemma {:induction false} Below(x: nat, n: nat)
    requires x < n * TWO32
    ensures 0 <= x / TWO32 < n
  {
  }

  function Locations<T>(env: Env<T>, size: nat, e: T): (locs: seq<nat>)
    requires size > 0
    ensures |locs| == 8 && forall k :: 0 <= k < 8 ==> locs[k] < size
  {
    [FastRange(env.hash(e, 0), size), FastRange(env.hash(e, 1), size),
     FastRange(env.hash(e, 2), size), FastRange(env.hash(e, 3), size),
     FastRange(env.hash(e, 4), size), FastRange(env.hash(e, 5), size),
     FastRange(env.hash(e, 6), size), FastRange(env.hash(e, 7), size)]
  }

  /** The first of the given slots, from number k on, that holds e; 8 if there is none. */
  function FindElement<T(==)>(table: seq<T>, locs: seq<nat>, e: T, k: nat): (r: nat)
    requires |locs| == 8 && k <= 8 && forall i :: 0 <= i < 8 ==> locs[i] < |table|
    ensures k <= r <= 8 && (r < 8 ==> table[locs[r]] == e)
    ensures forall i :: k <= i < r ==> table[locs[i]] != e
    decreases 8 - k
  {
    if k == 8 || table[locs[k]] == e then k else FindElement(table, locs, e, k + 1)
  }

  /** The first of the given slots, from number k on, that may be overwritten; 8 if there is none. */
  function FindGarbage(garbage: seq<bool>, locs: seq<nat>, k: nat): (r: nat)
    requires |locs| == 8 && k <= 8 && forall i :: 0 <= i < 8 ==> locs[i] < |garbage|
    ensures k <= r <= 8 && (r < 8 ==> garbage[locs[r]])
    ensures forall i :: k <= i < r ==> !garbage[locs[i]]
    decreases 8 - k
  {
    if k == 8 || garbage[locs[k]] then k else FindGarbage(garbage, locs, k + 1)
  }

  /** The position of a slot among the given ones; 8 if it is not one of them. */
  function FindLocation(locs: seq<nat>, loc: nat, k: nat): (r: nat)
    requires |locs| == 8 && k <= 8
    ensures k <= r <= 8 && (r < 8 ==> locs[r] == loc)
    ensures forall i :: k <= i < r ==> locs[i] != loc
    decreases 8 - k
  {
    if k == 8 || locs[k] == loc then k else FindLocation(locs, loc, k + 1)
  }

  // ---------- operations ----------

  /** Stores an element for good. */
  function Put<T>(s: State<T>, loc: nat, e: T, young: bool): (t: State<T>)
    requires Shaped(s) && loc < |s.table|
    ensures Shaped(t) && |t.table| == |s.table|
  {
    s.(table := s.table[loc := e], garbage := s.garbage[loc := false], young := s.young[loc := young])
  }

  /** Puts an element in the place of a live one. */
  function Swapped<T>(s: State<T>, loc: nat, e: T, young: bool): (t: State<T>)
    requires Shaped(s) && loc < |s.table|
    ensures Shaped(t) && |t.table| == |s.table|
  {
    s.(table := s.table[loc := e], young := s.young[loc := young])
  }

  /** The chain of displacements, and the element that it drops when it ends for lack of depth. */
  function Displace<T>(env: Env<T>, s: State<T>, e: T, young: bool, last: nat, depth: nat): (r: (State<T>, Option<T>))
    requires Shaped(s)
    ensures Shaped(r.0) && |r.0.table| == |s.table|
    decreases depth
  {
    if depth == 0 then (s, Some(e))
    else
      var locs := Locations(env, |s.table|, e);
      var free := FindGarbage(s.garbage, locs, 0);
      if free < 8 then (Put(s, locs[free], e, young), None)
      else
        var loc := locs[(1 + FindLocation(locs, last, 0)) % 8];
        Displace(env, Swapped(s, loc, e, young), s.table[loc], s.young[loc], loc, depth - 1)
  }

  /** The entries of the current epoch that are not garbage, in the first n slots. */
  function Young<T>(s: State<T>, n: nat): (r: nat)
    requires Shaped(s) && n <= |s.table|
    ensures r <= n
  {
    if n == 0 then 0 else Young(s, n - 1) + (if s.young[n - 1] && !s.garbage[n - 1] then 1 else 0)
  }

  /** The older entries are given up and the current ones become the older ones. */
  function Aged<T>(s: State<T>): (t: State<T>)
    requires Shaped(s)
    ensures Shaped(t) && |t.table| == |s.table|
  {
    s.(garbage := seq(|s.garbage|, i requires 0 <= i < |s.garbage| => s.garbage[i] || !s.young[i]),
       young := seq(|s.young|, _ => false),
       counter := s.epochSize)
  }

  function Max(a: nat, b: nat): nat {
    if a >= b then a else b
  }

  function EpochCheck<T>(s: State<T>): (t: State<T>)
    requires Shaped(s)
    ensures Shaped(t) && |t.table| == |s.table|
  {
    if s.counter != 0 then s.(counter := s.counter - 1)
    else
      var count := Young(s, |s.table|);
      if count >= s.epochSize then Aged(s)
      else s.(counter := Max(1, Max(s.epochSize / 16, s.epochSize - count)))
  }

  function Insert<T(==)>(env: Env<T>, s: State<T>, e: T, depthLimit: nat): (r: (State<T>, Option<T>))
    requires Shaped(s)
    ensures Shaped(r.0) && |r.0.table| == |s.table|
  {
    var t := EpochCheck(s);
    var locs := Locations(env, |t.table|, e);
    var found := FindElement(t.table, locs, e, 0);
    if found < 8 then (Put(t, locs[found], e, true), None)
    else Displace(env, t, e, true, INVALID, depthLimit)
  }

  function Contains<T(==)>(env: Env<T>, s: State<T>, e: T, erase: bool): (r: (State<T>, bool))
    requires Shaped(s)
    ensures Shaped(r.0) && |r.0.table| == |s.table|
  {
    var locs := Locations(env, |s.table|, e);
    var found := FindElement(s.table, locs, e, 0);
    if found == 8 then (s, false)
    else if erase then (s.(garbage := s.garbage[locs[found] := true]), true)
    else (s, true)
  }

  /** 45 percent of the size, computed with 32 bits. */
  function EpochSize(size: nat): (r: nat)
    ensures r >= 1
  {
    Max(1, 45 * size % TWO32 / 100)
  }

  function Setup<T>(env: Env<T>, newSize: nat): (s: State<T>)
    requires newSize < TWO32
    ensures Shaped(s)
  {
    var size := Max(2, newSize);
    State(seq(size, _ => env.initial), seq(size, _ => true), seq(size, _ => false), EpochSize(size), EpochSize(size))
  }

  // ---------- what the slots add up to ----------

  /** The live entries of the current epoch, those of the epoch before, and all live elements. */
  datatype Tally<T(==)> = Tally(young: int, older: int, live: multiset<T>)

  ghost function One<T>(e: T, garbage: bool, young: bool): Tally<T> {
    if garbage then Tally(0, 0, multiset{})
    else if young then Tally(1, 0, multiset{e})
    else Tally(0, 1, multiset{e})
  }

  ghost function Sum<T>(s: State<T>, n: nat): Tally<T>
    requires Shaped(s) && n <= |s.table|
  {
    if n == 0 then Tally(0, 0, multiset{})
    else
      var a, b := Sum(s, n - 1), One(s.table[n - 1], s.garbage[n - 1], s.young[n - 1]);
      Tally(a.young + b.young, a.older + b.older, a.live + b.live)
  }

  ghost function Total<T>(s: State<T>): Tally<T>
    requires Shaped(s)
  {
    Sum(s, |s.table|)
  }

  ghost predicate SameBelow<T>(s: State<T>, t: State<T>, n: nat)
    requires Shaped(s) && Shaped(t) && |s.table| == |t.table| && n <= |s.table|
  {
    forall i :: 0 <= i < n ==> s.table[i] == t.table[i] && s.garbage[i] == t.garbage[i] && s.young[i] == t.young[i]
  }

  lemma {:induction false} SumSame<T>(s: State<T>, t: State<T>, n: nat)
    requires Shaped(s) && Shaped(t) && |s.table| == |t.table| && n <= |s.table| && SameBelow(s, t, n)
    ensures Sum(s, n) == Sum(t, n)
  {
    hide One;
    if n > 0 {
      SumSame(s, t, n - 1);
      assert s.table[n - 1] == t.table[n - 1] && s.garbage[n - 1] == t.garbage[n - 1] && s.young[n - 1] == t.young[n - 1];
    }
  }

  /** Changing one slot changes the sums by the difference of what it holds. */
  lemma {:induction false} SumUpdate<T>(s: State<T>, t: State<T>, loc: nat, n: nat)
    requires Shaped(s) && Shaped(t) && |s.table| == |t.table| && loc < n <= |s.table|
    requires forall i :: 0 <= i < |s.table| && i != loc ==>
      s.table[i] == t.table[i] && s.garbage[i] == t.garbage[i] && s.young[i] == t.young[i]
    ensures var a, b := Sum(s, n), Sum(t, n);
      var x, y := One(s.table[loc], s.garbage[loc], s.young[loc]), One(t.table[loc], t.garbage[loc], t.young[loc]);
      && b.young == a.young - x.young + y.young
      && b.older == a.older - x.older + y.older
      && x.live <= a.live && b.live == a.live - x.live + y.live
  {
    hide One;
    if n == loc + 1 {
      SumSame(s, t, loc);
    } else {
      SumUpdate(s, t, loc, n - 1);
      assert s.table[n - 1] == t.table[n - 1];
      Regroup(One(s.table[n - 1], s.garbage[n - 1], s.young[n - 1]).live,
        One(s.table[loc], s.garbage[loc], s.young[loc]).live,
        One(t.table[loc], t.garbage[loc], t.young[loc]).live, Sum(s, n - 1).live);
    }
  }

  lemma {:induction false} Regroup<T>(a: multiset<T>, x: multiset<T>, y: multiset<T>, b: multiset<T>)
    requires x <= b
    ensures x <= b + a && (b - x + y) + a == b + a - x + y
  {
  }

  lemma {:induction false} YoungIsSum<T>(s: State<T>, n: nat)
    requires Shaped(s) && n <= |s.table|
    ensures Young(s, n) == Sum(s, n).young
  {
    if n > 0 {
      YoungIsSum(s, n - 1);
    }
  }

  lemma {:induction false} SumAged<T>(s: State<T>, n: nat)
    requires Shaped(s) && n <= |s.table|
    ensures Sum(Aged(s), n).young == 0 && Sum(Aged(s), n).older == Sum(s, n).young
    ensures Sum(Aged(s), n).live <= Sum(s, n).live
  {
    hide One;
    if n > 0 {
      SumAged(s, n - 1);
      var t := Aged(s);
      assert t.garbage[n - 1] == (s.garbage[n - 1] || !s.young[n - 1]) && !t.young[n - 1];
      var x, y := One(s.table[n - 1], t.garbage[n - 1], false), One(s.table[n - 1], s.garbage[n - 1], s.young[n - 1]);
      AgedOne(s.table[n - 1], s.garbage[n - 1], s.young[n - 1]);
      SubsetSum(Sum(t, n - 1).live, Sum(s, n - 1).live, x.live, y.live);
    }
  }

  lemma {:induction false} AgedOne<T>(e: T, garbage: bool, young: bool)
    ensures var x, y := One(e, garbage || !young, false), One(e, garbage, young);
      x.young == 0 && x.older == y.young && x.live <= y.live
  {
  }

  lemma {:induction false} SubsetSum<T>(a: multiset<T>, b: multiset<T>, x: multiset<T>, y: multiset<T>)
    requires a <= b && x <= y
    ensures a + x <= b + y
  {
  }

  // ---------- the invariant ----------

  /** A live element is in one of its own slots. */
  ghost predicate OwnSlots<T>(env: Env<T>, s: State<T>)
    requires Shaped(s)
  {
    forall i :: 0 <= i < |s.table| && !s.garbage[i] ==> i in Locations(env, |s.table|, s.table[i])
  }

  /** The table holds only inserted elements and the initial one. */
  ghost predicate Known<T>(env: Env<T>, s: State<T>, inserted: set<T>) {
    forall i :: 0 <= i < |s.table| ==> s.table[i] == env.initial || s.table[i] in inserted
  }

  function Bound(epochSize: nat): nat {
    epochSize + Max(1, epochSize / 16)
  }

  ghost predicate LoadOk<T>(s: State<T>)
    requires Shaped(s)
  {
    && s.epochSize >= 1
    && Total(s).young + s.counter <= Bound(s.epochSize)
    && Total(s).older <= Bound(s.epochSize)
  }

  ghost predicate Inv<T>(env: Env<T>, s: State<T>, inserted: set<T>) {
    Shaped(s) && OwnSlots(env, s) && Known(env, s, inserted) && LoadOk(s)
  }

  // ---------- the displacement chain ----------

  lemma {:induction false} PutTally<T>(s: State<T>, loc: nat, e: T, young: bool)
    requires Shaped(s) && loc < |s.table|
    ensures var a, b := Total(s), Total(Put(s, loc, e, young));
      var x := One(s.table[loc], s.garbage[loc], s.young[loc]);
      && b.young == a.young - x.young + (if young then 1 else 0)
      && b.older == a.older - x.older + (if young then 0 else 1)
      && x.live <= a.live && b.live == a.live - x.live + multiset{e}
  {
    SumUpdate(s, Put(s, loc, e, young), loc, |s.table|);
  }

  /** Swapping the carried element with that of a live slot. */
  lemma {:induction false} SwapTally<T>(s: State<T>, loc: nat, e: T, young: bool)
    requires Shaped(s) && loc < |s.table| && !s.garbage[loc]
    ensures var t := Swapped(s, loc, e, young);
      var a, b := Total(s), Total(t);
      && b.young + (if s.young[loc] then 1 else 0) == a.young + (if young then 1 else 0)
      && b.older + (if s.young[loc] then 0 else 1) == a.older + (if young then 0 else 1)
      && b.live + multiset{s.table[loc]} == a.live + multiset{e}
  {
    hide Sum;
    var t := Swapped(s, loc, e, young);
    SumUpdate(s, t, loc, |s.table|);
    Exchange(Total(s).live, s.table[loc], e);
  }

  lemma {:induction false} Unchanged<T>(a: multiset<T>, e: T)
    ensures a - multiset{} + multiset{e} == a + multiset{e} && a + multiset{e} + multiset{} == a + multiset{e}
  {
  }

  lemma {:induction false} Exchange<T>(a: multiset<T>, x: T, e: T)
    requires multiset{x} <= a
    ensures a - multiset{x} + multiset{e} + multiset{x} == a + multiset{e}
  {
  }

  /** What a chain leaves: the live elements plus the new one minus the one it dropped, and at most one entry
      more in the new one's generation and none in the other. */
  ghost predicate Conserves<T>(a: Tally<T>, b: Tally<T>, e: T, young: bool, dropped: Option<T>) {
    && b.live + (if dropped.Some? then multiset{dropped.value} else multiset{}) == a.live + multiset{e}
    && b.young <= a.young + (if young then 1 else 0)
    && b.older <= a.older + (if young then 0 else 1)
  }

  lemma {:induction false} SwapThen<T>(a: Tally<T>, b: Tally<T>, d: Tally<T>, e: T, young: bool, x: T, wasYoung: bool, dropped: Option<T>)
    requires b.young + (if wasYoung then 1 else 0) == a.young + (if young then 1 else 0)
    requires b.older + (if wasYoung then 0 else 1) == a.older + (if young then 0 else 1)
    requires b.live + multiset{x} == a.live + multiset{e}
    requires Conserves(b, d, x, wasYoung, dropped)
    ensures Conserves(a, d, e, young, dropped)
  {
  }

  lemma {:induction false} DropConserves<T>(s: State<T>, e: T, young: bool)
    requires Shaped(s)
    ensures Conserves(Total(s), Total(s), e, young, Some(e))
  {
    hide Total;
  }

  lemma {:induction false} PutConserves<T>(s: State<T>, loc: nat, e: T, young: bool)
    requires Shaped(s) && loc < |s.table| && s.garbage[loc]
    ensures Conserves(Total(s), Total(Put(s, loc, e, young)), e, young, None)
  {
    hide Total, Put;
    PutTally(s, loc, e, young);
    Unchanged(Total(s).live, e);
  }

  lemma {:induction false} DisplaceConserves<T>(env: Env<T>, s: State<T>, e: T, young: bool, last: nat, depth: nat)
    requires Shaped(s)
    ensures var (t, dropped) := Displace(env, s, e, young, last, depth);
      Conserves(Total(s), Total(t), e, young, dropped)
    decreases depth
  {
    hide Total, Locations, Put, Swapped, FindGarbage, FindLocation, Conserves;
    if depth == 0 {
      DropConserves(s, e, young);
    } else {
      var locs := Locations(env, |s.table|, e);
      var free := FindGarbage(s.garbage, locs, 0);
      if free < 8 {
        PutConserves(s, locs[free], e, young);
      } else {
        var loc := locs[(1 + FindLocation(locs, last, 0)) % 8];
        var t := Swapped(s, loc, e, young);
        var (u, dropped) := Displace(env, t, s.table[loc], s.young[loc], loc, depth - 1);
        SwapTally(s, loc, e, young);
        DisplaceConserves(env, t, s.table[loc], s.young[loc], loc, depth - 1);
        SwapThen(Total(s), Total(t), Total(u), e, young, s.table[loc], s.young[loc], dropped);
      }
    }
  }

  lemma {:induction false} PutOwn<T>(env: Env<T>, s: State<T>, inserted: set<T>, loc: nat, e: T, young: bool)
    requires Shaped(s) && OwnSlots(env, s) && Known(env, s, inserted)
    requires loc in Locations(env, |s.table|, e) && loc < |s.table| && (e == env.initial || e in inserted)
    ensures OwnSlots(env, Put(s, loc, e, young)) && Known(env, Put(s, loc, e, young), inserted)
  {
    hide Locations;
  }

  lemma {:induction false} DisplaceOwn<T>(env: Env<T>, s: State<T>, inserted: set<T>, e: T, young: bool, last: nat, depth: nat)
    requires Shaped(s) && OwnSlots(env, s) && Known(env, s, inserted) && (e == env.initial || e in inserted)
    ensures var t := Displace(env, s, e, young, last, depth).0;
      OwnSlots(env, t) && Known(env, t, inserted)
    decreases depth
  {
    hide Locations, OwnSlots, Known, Put, Swapped, FindGarbage, FindLocation;
    if depth > 0 {
      var locs := Locations(env, |s.table|, e);
      var free := FindGarbage(s.garbage, locs, 0);
      if free < 8 {
        PutOwn(env, s, inserted, locs[free], e, young);
      } else {
        var loc := locs[(1 + FindLocation(locs, last, 0)) % 8];
        var t := Swapped(s, loc, e, young);
        SwapIsPut(s, loc, e, young);
        PutOwn(env, s, inserted, loc, e, young);
        KnownAt(env, s, inserted, loc);
        DisplaceOwn(env, t, inserted, s.table[loc], s.young[loc], loc, depth - 1);
      }
    }
  }

  lemma {:induction false} SwapIsPut<T>(s: State<T>, loc: nat, e: T, young: bool)
    requires Shaped(s) && loc < |s.table| && !s.garbage[loc]
    ensures Swapped(s, loc, e, young) == Put(s, loc, e, young)
  {
    assert s.garbage[loc := false] == s.garbage;
  }

  lemma {:induction false} KnownAt<T>(env: Env<T>, s: State<T>, inserted: set<T>, loc: nat)
    requires Known(env, s, inserted) && loc < |s.table|
    ensures s.table[loc] == env.initial || s.table[loc] in inserted
  {
  }

  // ---------- every operation ----------

  /** The scan keeps the load in bounds, with room for one more entry of the current epoch. */
  lemma {:induction false} EpochCheckKeeps<T>(env: Env<T>, s: State<T>, inserted: set<T>)
    requires Inv(env, s, inserted)
    ensures var t := EpochCheck(s);
      && OwnSlots(env, t) && Known(env, t, inserted)
      && t.epochSize == s.epochSize
      && Total(t).young + 1 + t.counter <= Bound(t.epochSize)
      && Total(t).older <= Bound(t.epochSize)
      && Total(t).live <= Total(s).live
  {
    hide Sum, Locations, Young, Aged;
    var t := EpochCheck(s);
    YoungIsSum(s, |s.table|);
    if s.counter == 0 && Young(s, |s.table|) >= s.epochSize {
      SumAged(s, |s.table|);
      AgedOwn(env, s, inserted);
    } else {
      SumSame(s, t, |s.table|);
    }
  }

  lemma {:induction false} AgedOwn<T>(env: Env<T>, s: State<T>, inserted: set<T>)
    requires Shaped(s) && OwnSlots(env, s) && Known(env, s, inserted)
    ensures OwnSlots(env, Aged(s)) && Known(env, Aged(s), inserted)
    ensures Aged(s).counter == s.epochSize == Aged(s).epochSize
  {
    hide Locations;
  }

  /** Inserting conserves the live elements: they are those after the epoch check, plus the new one unless it
      was already live in its slot, minus at most the one dropped. */
  lemma {:induction false} InsertConserves<T>(env: Env<T>, s: State<T>, e: T, depthLimit: nat)
    requires Shaped(s)
    ensures var (t, dropped) := Insert(env, s, e, depthLimit); var c := EpochCheck(s);
      || Conserves(Total(c), Total(t), e, true, dropped)
      || (dropped.None? && e in Total(c).live && Total(t).live == Total(c).live
          && Total(t).young <= Total(c).young + 1 && Total(t).older <= Total(c).older)
  {
    hide Total, Locations, Displace, EpochCheck;
    var c := EpochCheck(s);
    var locs := Locations(env, |c.table|, e);
    var found := FindElement(c.table, locs, e, 0);
    if found < 8 {
      var loc := locs[found];
      PutTally(c, loc, e, true);
      if c.garbage[loc] {
        assert Total(c).live - multiset{} == Total(c).live;
      } else {
        PutBack(Total(c).live, e);
      }
    } else {
      DisplaceConserves(env, c, e, true, INVALID, depthLimit);
    }
  }

  lemma {:induction false} PutBack<T>(a: multiset<T>, e: T)
    requires multiset{e} <= a
    ensures a - multiset{e} + multiset{e} == a && e in a
  {
    assert e in multiset{e};
  }

  lemma {:induction false} InsertKeeps<T>(env: Env<T>, s: State<T>, inserted: set<T>, e: T, depthLimit: nat)
    requires Inv(env, s, inserted)
    ensures Inv(env, Insert(env, s, e, depthLimit).0, inserted + {e})
  {
    hide Total, Locations, EpochCheck, OwnSlots, Known;
    var c := EpochCheck(s);
    EpochCheckKeeps(env, s, inserted);
    KnownMore(env, c, inserted, e);
    InsertConserves(env, s, e, depthLimit);
    InsertParams(env, s, e, depthLimit);
    var locs := Locations(env, |c.table|, e);
    var found := FindElement(c.table, locs, e, 0);
    if found < 8 {
      PutOwn(env, c, inserted + {e}, locs[found], e, true);
    } else {
      DisplaceOwn(env, c, inserted + {e}, e, true, INVALID, depthLimit);
    }
  }

  lemma {:induction false} KnownMore<T>(env: Env<T>, s: State<T>, inserted: set<T>, e: T)
    requires Known(env, s, inserted)
    ensures Known(env, s, inserted + {e})
  {
  }

  lemma {:induction false} DisplaceParams<T>(env: Env<T>, s: State<T>, e: T, young: bool, last: nat, depth: nat)
    requires Shaped(s)
    ensures var t := Displace(env, s, e, young, last, depth).0; t.counter == s.counter && t.epochSize == s.epochSize
    decreases depth
  {
    hide Locations, FindGarbage, FindLocation;
    if depth > 0 {
      var locs := Locations(env, |s.table|, e);
      if FindGarbage(s.garbage, locs, 0) == 8 {
        var loc := locs[(1 + FindLocation(locs, last, 0)) % 8];
        DisplaceParams(env, Swapped(s, loc, e, young), s.table[loc], s.young[loc], loc, depth - 1);
      }
    }
  }

  lemma {:induction false} InsertParams<T>(env: Env<T>, s: State<T>, e: T, depthLimit: nat)
    requires Shaped(s)
    ensures var t, c := Insert(env, s, e, depthLimit).0, EpochCheck(s);
      t.counter == c.counter && t.epochSize == c.epochSize
  {
    hide Locations, EpochCheck;
    DisplaceParams(env, EpochCheck(s), e, true, INVALID, depthLimit);
  }

  lemma {:induction false} ContainsKeeps<T>(env: Env<T>, s: State<T>, inserted: set<T>, e: T, erase: bool)
    requires Inv(env, s, inserted)
    ensures Inv(env, Contains(env, s, e, erase).0, inserted)
  {
    hide Locations, Sum;
    var locs := Locations(env, |s.table|, e);
    var found := FindElement(s.table, locs, e, 0);
    if found < 8 && erase {
      SumUpdate(s, Contains(env, s, e, erase).0, locs[found], |s.table|);
    }
  }

  /** Every live element is found, and what is found was inserted or is the initial element. */
  lemma {:induction false} ContainsExact<T>(env: Env<T>, s: State<T>, inserted: set<T>, e: T, erase: bool)
    requires Inv(env, s, inserted)
    ensures e in Total(s).live ==> Contains(env, s, e, erase).1
    ensures Contains(env, s, e, erase).1 ==> e == env.initial || e in inserted
  {
    hide Locations;
    if e in Total(s).live {
      var i := LiveSlot(s, |s.table|, e);
      var locs := Locations(env, |s.table|, e);
      assert i in locs;
      var k :| 0 <= k < |locs| && locs[k] == i;
    }
  }

  lemma {:induction false} LiveSlot<T>(s: State<T>, n: nat, e: T) returns (i: nat)
    requires Shaped(s) && n <= |s.table| && e in Sum(s, n).live
    ensures i < n && s.table[i] == e && !s.garbage[i]
  {
    hide One;
    if e in Sum(s, n - 1).live {
      i := LiveSlot(s, n - 1, e);
    } else {
      i := n - 1;
      OneIs(s.table[i], s.garbage[i], s.young[i], e);
    }
  }

  lemma {:induction false} OneIs<T>(x: T, garbage: bool, young: bool, e: T)
    requires e in One(x, garbage, young).live
    ensures x == e && !garbage
  {
  }

  /** Erasing is lazy: an element can still be found after it has been found and erased. */
  lemma {:induction false} EraseIsLazy<T>(env: Env<T>, s: State<T>, e: T, erase: bool)
    requires Shaped(s)
    ensures Contains(env, Contains(env, s, e, true).0, e, erase).1 == Contains(env, s, e, true).1
  {
    hide Locations;
  }

  // ---------- runs ----------

  datatype Op<T> = DoInsert(e: T) | DoContains(e: T, erase: bool)

  function Step<T(==)>(env: Env<T>, s: State<T>, op: Op<T>, depthLimit: nat): (t: State<T>)
    requires Shaped(s)
    ensures Shaped(t)
  {
    match op
    case DoInsert(e) => Insert(env, s, e, depthLimit).0
    case DoContains(e, erase) => Contains(env, s, e, erase).0
  }

  function Run<T(==)>(env: Env<T>, s: State<T>, ops: seq<Op<T>>, depthLimit: nat): (t: State<T>)
    requires Shaped(s)
    ensures Shaped(t)
    decreases |ops|
  {
    if ops == [] then s else Run(env, Step(env, s, ops[0], depthLimit), ops[1..], depthLimit)
  }

  function Inserted<T(==)>(ops: seq<Op<T>>): set<T> {
    if ops == [] then {} else (if ops[0].DoInsert? then {ops[0].e} else {}) + Inserted(ops[1..])
  }

  lemma {:induction false} RunKeeps<T>(env: Env<T>, s: State<T>, ops: seq<Op<T>>, depthLimit: nat, before: set<T>)
    requires Inv(env, s, before)
    ensures Inv(env, Run(env, s, ops, depthLimit), before + Inserted(ops))
    decreases |ops|
  {
    hide Inv, Insert, Contains;
    if ops == [] {
      assert before + Inserted(ops) == before;
    } else {
      InvShaped(env, s, before);
      match ops[0] {
        case DoInsert(e) =>
          InsertKeeps(env, s, before, e, depthLimit);
          RunKeeps(env, Step(env, s, ops[0], depthLimit), ops[1..], depthLimit, before + {e});
          assert before + {e} + Inserted(ops[1..]) == before + Inserted(ops);
        case DoContains(e, erase) =>
          ContainsKeeps(env, s, before, e, erase);
          RunKeeps(env, Step(env, s, ops[0], depthLimit), ops[1..], depthLimit, before);
          assert before + Inserted(ops[1..]) == before + Inserted(ops);
      }
    }
  }

  lemma {:induction false} InvShaped<T>(env: Env<T>, s: State<T>, inserted: set<T>)
    requires Inv(env, s, inserted)
    ensures Shaped(s)
  {
  }

  lemma {:induction false} SumSetup<T>(env: Env<T>, newSize: nat, n: nat)
    requires newSize < TWO32 && n <= Max(2, newSize)
    ensures Sum(Setup(env, newSize), n) == Tally(0, 0, multiset{})
  {
    if n > 0 {
      SumSetup(env, newSize, n - 1);
    }
  }

  lemma {:induction false} SetupOk<T>(env: Env<T>, newSize: nat)
    requires newSize < TWO32
    ensures Inv(env, Setup(env, newSize), {})
  {
    hide Locations, EpochSize;
    SumSetup(env, newSize, Max(2, newSize));
  }

  lemma {:induction false} RunParams<T>(env: Env<T>, s: State<T>, ops: seq<Op<T>>, depthLimit: nat)
    requires Shaped(s)
    ensures var t := Run(env, s, ops, depthLimit); |t.table| == |s.table| && t.epochSize == s.epochSize
    decreases |ops|
  {
    hide Insert, Contains;
    if ops != [] {
      StepParams(env, s, ops[0], depthLimit);
      RunParams(env, Step(env, s, ops[0], depthLimit), ops[1..], depthLimit);
    }
  }

  lemma {:induction false} StepParams<T>(env: Env<T>, s: State<T>, op: Op<T>, depthLimit: nat)
    requires Shaped(s)
    ensures var t := Step(env, s, op, depthLimit); |t.table| == |s.table| && t.epochSize == s.epochSize
  {
    hide Insert, Locations, FindElement;
    if op.DoInsert? {
      InsertParams(env, s, op.e, depthLimit);
    }
  }

  lemma {:induction false} LiveCount<T>(s: State<T>, n: nat)
    requires Shaped(s) && n <= |s.table|
    ensures |Sum(s, n).live| == Sum(s, n).young + Sum(s, n).older
  {
    hide One;
    if n > 0 {
      LiveCount(s, n - 1);
      OneCount(s.table[n - 1], s.garbage[n - 1], s.young[n - 1]);
    }
  }

  lemma {:induction false} OneCount<T>(e: T, garbage: bool, young: bool)
    ensures var x := One(e, garbage, young); |x.live| == x.young + x.older
  {
  }

  /** In every run the live entries of either generation stay below the epoch size plus a sixteenth of it, and
      every find is of something inserted earlier. */
  lemma {:induction false} EveryRun<T>(env: Env<T>, newSize: nat, ops: seq<Op<T>>, depthLimit: nat, e: T)
    requires newSize < TWO32
    ensures var s := Run(env, Setup(env, newSize), ops, depthLimit); var bound := Bound(EpochSize(Max(2, newSize)));
      && OwnSlots(env, s)
      && Total(s).young + s.counter <= bound && Total(s).older <= bound
      && |Total(s).live| <= 2 * bound
      && (e in Total(s).live ==> Contains(env, s, e, false).1)
      && (Contains(env, s, e, false).1 ==> e == env.initial || e in Inserted(ops))
  {
    hide Locations, Sum, EpochSize;
    SetupOk(env, newSize);
    RunKeeps(env, Setup(env, newSize), ops, depthLimit, {});
    RunParams(env, Setup(env, newSize), ops, depthLimit);
    assert {} + Inserted(ops) == Inserted(ops);
    var s := Run(env, Setup(env, newSize), ops, depthLimit);
    LiveCount(s, |s.table|);
    ContainsExact(env, s, Inserted(ops), e, false);
  }

  /** So a table of at least 21 slots never fills up with live elements, whatever is done with it: there is always
      a slot that may be overwritten. */
  lemma {:induction false} NeverFull<T>(env: Env<T>, newSize: nat, ops: seq<Op<T>>, depthLimit: nat)
    requires 21 <= newSize < TWO32
    ensures var s := Run(env, Setup(env, newSize), ops, depthLimit);
      |Total(s).live| < |s.table| == newSize && exists i :: 0 <= i < |s.table| && s.garbage[i]
  {
    hide Locations, Sum, EpochSize;
    var s := Run(env, Setup(env, newSize), ops, depthLimit);
    EveryRun(env, newSize, ops, depthLimit, env.initial);
    RunParams(env, Setup(env, newSize), ops, depthLimit);
    LoadBelowSize(newSize);
    SomeGarbage(s, |s.table|);
  }

  lemma {:induction false} SomeGarbage<T>(s: State<T>, n: nat)
    requires Shaped(s) && n <= |s.table| && |Sum(s, n).live| < n
    ensures exists i :: 0 <= i < n && s.garbage[i]
  {
    hide One;
    if !s.garbage[n - 1] {
      OneLive(s.table[n - 1], s.young[n - 1]);
      SomeGarbage(s, n - 1);
    }
  }

  lemma {:induction false} OneLive<T>(e: T, young: bool)
    ensures |One(e, false, young).live| == 1
  {
  }

  /** Twice the bound is below the size; computing 45 times the size in 32 bits can only lower it. */
  lemma {:induction false} LoadBelowSize(size: nat)
    requires 21 <= size
    ensures 2 * Bound(EpochSize(size)) < size
  {
    assert 45 * size % TWO32 <= 45 * size;
  }
}

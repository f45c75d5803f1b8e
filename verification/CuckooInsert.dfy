/** What insertion achieves: when the new element is stored, what a full neighbourhood costs, what the change of
    epochs gives up, and how long an entry is safe. */
module CuckooInsert {
  import opened Options
  import opened Powers
  import opened Cuckoo

  /** The element is in one of its eight slots. */
  ghost predicate Has<T>(env: Env<T>, s: State<T>, e: T)
    requires Shaped(s)
  {
    exists loc :: loc in Locations(env, |s.table|, e) && s.table[loc] == e
  }

  /** One of the eight slots of the element may be overwritten. */
  ghost predicate Room<T>(env: Env<T>, s: State<T>, e: T)
    requires Shaped(s)
  {
    exists loc :: loc in Locations(env, |s.table|, e) && s.garbage[loc]
  }

  /** The element sits in the slot, live and of the current epoch. */
  ghost predicate FreshAt<T>(s: State<T>, e: T, loc: nat) {
    Shaped(s) && loc < |s.table| && s.table[loc] == e && !s.garbage[loc] && s.young[loc]
  }

  /** Nothing but one slot differs. */
  ghost predicate SameBut<T>(s: State<T>, t: State<T>, loc: nat) {
    && Shaped(s) && Shaped(t) && |s.table| == |t.table|
    && forall i :: 0 <= i < |s.table| && i != loc ==>
      s.table[i] == t.table[i] && s.garbage[i] == t.garbage[i] && s.young[i] == t.young[i]
  }

  /** From s to t, the element has been put into a slot of its own that already held it or was open. */
  ghost predicate StoredAt<T>(env: Env<T>, s: State<T>, t: State<T>, e: T, loc: nat) {
    && Shaped(s) && loc in Locations(env, |s.table|, e) && (s.table[loc] == e || s.garbage[loc])
    && FreshAt(t, e, loc) && SameBut(s, t, loc)
  }

  lemma {:induction false} HasIsFound<T>(env: Env<T>, s: State<T>, e: T)
    requires Shaped(s)
    ensures Has(env, s, e) <==> FindElement(s.table, Locations(env, |s.table|, e), e, 0) < 8
  {
    hide Locations;
    var locs := Locations(env, |s.table|, e);
    if loc :| loc in locs && s.table[loc] == e {
      var k :| 0 <= k < |locs| && locs[k] == loc;
    }
    var found := FindElement(s.table, locs, e, 0);
    if found < 8 {
      assert locs[found] in locs;
    }
  }

  lemma {:induction false} RoomIsFound<T>(env: Env<T>, s: State<T>, e: T)
    requires Shaped(s)
    ensures Room(env, s, e) <==> FindGarbage(s.garbage, Locations(env, |s.table|, e), 0) < 8
  {
    hide Locations;
    var locs := Locations(env, |s.table|, e);
    if loc :| loc in locs && s.garbage[loc] {
      var k :| 0 <= k < |locs| && locs[k] == loc;
    }
    var free := FindGarbage(s.garbage, locs, 0);
    if free < 8 {
      assert locs[free] in locs;
    }
  }

  // ---------- an element that finds a place ----------

  /** With the element already in one of its slots, or with one of them open, insertion stores it there for the
      current epoch, drops nothing and changes nothing else. (The program's depth limit is at least one.) */
  lemma {:induction false} InsertStores<T>(env: Env<T>, s: State<T>, e: T, depthLimit: nat)
    requires Shaped(s) && depthLimit >= 1
    requires Has(env, EpochCheck(s), e) || Room(env, EpochCheck(s), e)
    ensures var (t, dropped) := Insert(env, s, e, depthLimit); var c := EpochCheck(s);
      && dropped.None?
      && (exists loc :: StoredAt(env, c, t, e, loc))
  {
    hide Locations, EpochCheck;
    var c := EpochCheck(s);
    var locs := Locations(env, |s.table|, e);
    HasIsFound(env, c, e);
    RoomIsFound(env, c, e);
    var found := FindElement(c.table, locs, e, 0);
    var loc := if found < 8 then locs[found] else locs[FindGarbage(c.garbage, locs, 0)];
    var t := Insert(env, s, e, depthLimit).0;
    assert StoredAt(env, c, t, e, loc);
  }

  lemma {:induction false} LiveAt<T>(s: State<T>, n: nat, i: nat)
    requires Shaped(s) && i < n <= |s.table| && !s.garbage[i]
    ensures s.table[i] in Sum(s, n).live
  {
    if i < n - 1 {
      LiveAt(s, n - 1, i);
    }
  }

  /** So afterwards it is live, and it is found. */
  lemma {:induction false} InsertFound<T>(env: Env<T>, s: State<T>, e: T, depthLimit: nat)
    requires Shaped(s) && depthLimit >= 1
    requires Has(env, EpochCheck(s), e) || Room(env, EpochCheck(s), e)
    ensures var t := Insert(env, s, e, depthLimit).0; e in Total(t).live && Contains(env, t, e, false).1
  {
    hide Locations, EpochCheck, Insert, Sum;
    InsertStores(env, s, e, depthLimit);
    var t, c := Insert(env, s, e, depthLimit).0, EpochCheck(s);
    var loc :| StoredAt(env, c, t, e, loc);
    LiveAt(t, |t.table|, loc);
    assert Has(env, t, e);
    HasIsFound(env, t, e);
  }

  /** A new table takes any element. */
  lemma {:induction false} FirstInsertion<T>(env: Env<T>, newSize: nat, e: T, depthLimit: nat)
    requires newSize < TWO32 && depthLimit >= 1
    ensures var (t, dropped) := Insert(env, Setup(env, newSize), e, depthLimit);
      dropped.None? && e in Total(t).live && Contains(env, t, e, false).1
  {
    hide Locations, Insert, Contains, Sum, EpochSize;
    var s := Setup(env, newSize);
    var c := EpochCheck(s);
    var locs := Locations(env, |s.table|, e);
    assert locs[0] in locs && c.garbage[locs[0]];
    assert Room(env, c, e);
    InsertStores(env, s, e, depthLimit);
    InsertFound(env, s, e, depthLimit);
  }

  // ---------- an element that does not ----------

  /** A chain of elements, each put into a slot of its own from which the next had to go: none of them finds an open
      slot, and none goes back at once where it came from, unless its slots coincide. */
  ghost predicate Pushed<T>(env: Env<T>, garbage: seq<bool>, path: seq<T>, slots: seq<nat>) {
    && 0 < |garbage| && |path| == |slots| + 1
    && (forall i :: 0 <= i < |slots| ==> slots[i] in Locations(env, |garbage|, path[i]) && slots[i] < |garbage|)
    && (forall i :: 0 <= i < |slots| ==> Crowded(env, garbage, path[i]))
    && (forall i :: 0 < i < |slots| ==> Apart(Locations(env, |garbage|, path[i])) ==> slots[i] != slots[i - 1])
  }

  ghost predicate Crowded<T>(env: Env<T>, garbage: seq<bool>, e: T)
    requires 0 < |garbage|
  {
    forall loc :: loc in Locations(env, |garbage|, e) ==> !garbage[loc]
  }

  ghost predicate Apart(locs: seq<nat>) {
    forall i, j :: 0 <= i < j < |locs| ==> locs[i] != locs[j]
  }

  lemma {:induction false} NextApart(locs: seq<nat>, last: nat)
    requires |locs| == 8 && last in locs && Apart(locs)
    ensures locs[(1 + FindLocation(locs, last, 0)) % 8] != last
  {
    var k :| 0 <= k < 8 && locs[k] == last;
    var f := FindLocation(locs, last, 0);
    assert f <= k;
  }

  ghost predicate OneClosed(garbage: seq<bool>, after: seq<bool>) {
    exists i :: 0 <= i < |garbage| && garbage[i] && after == garbage[i := false]
  }

  /** A chain of displacements, seen from outside: it drops an element only at the end of a full path, and otherwise
      closes exactly one open slot. */
  ghost predicate PathOf<T>(env: Env<T>, garbage: seq<bool>, e: T, last: nat, depth: nat, after: seq<bool>, dropped: Option<T>,
                            path: seq<T>, slots: seq<nat>) {
    && Pushed(env, garbage, path, slots) && path[0] == e && |slots| <= depth
    && (dropped.Some? ==> after == garbage && |slots| == depth && path[depth] == dropped.value)
    && (dropped.None? ==> |slots| < depth && OneClosed(garbage, after))
    && (slots != [] && last in Locations(env, |garbage|, e) && Apart(Locations(env, |garbage|, e)) ==> slots[0] != last)
  }

  lemma {:induction false} DisplacePath<T>(env: Env<T>, s: State<T>, e: T, young: bool, last: nat, depth: nat)
      returns (path: seq<T>, slots: seq<nat>)
    requires Shaped(s)
    ensures var (t, dropped) := Displace(env, s, e, young, last, depth);
      PathOf(env, s.garbage, e, last, depth, t.garbage, dropped, path, slots)
    decreases depth
  {
    hide Locations, FindGarbage, FindLocation, Apart, Crowded, PathOf;
    if depth == 0 {
      PathEnds(env, s.garbage, e, last);
      path, slots := [e], [];
    } else {
      var locs := Locations(env, |s.table|, e);
      var free := FindGarbage(s.garbage, locs, 0);
      if free < 8 {
        PathFinds(env, s.garbage, e, last, depth, locs[free]);
        path, slots := [e], [];
      } else {
        var loc := locs[(1 + FindLocation(locs, last, 0)) % 8];
        NoneOpen(env, s, e);
        if last in locs && Apart(locs) {
          NextApart(locs, last);
        }
        path, slots := DisplacePath(env, Swapped(s, loc, e, young), s.table[loc], s.young[loc], loc, depth - 1);
        var (t, dropped) := Displace(env, s, e, young, last, depth);
        PathMore(env, s.garbage, e, last, depth - 1, loc, s.table[loc], t.garbage, dropped, path, slots);
        path, slots := [e] + path, [loc] + slots;
      }
    }
  }

  lemma {:induction false} PathEnds<T>(env: Env<T>, garbage: seq<bool>, e: T, last: nat)
    requires 0 < |garbage|
    ensures PathOf(env, garbage, e, last, 0, garbage, Some(e), [e], [])
  {
  }

  lemma {:induction false} PathFinds<T>(env: Env<T>, garbage: seq<bool>, e: T, last: nat, depth: nat, i: nat)
    requires i < |garbage| && garbage[i] && depth > 0
    ensures PathOf(env, garbage, e, last, depth, garbage[i := false], None, [e], [])
  {
  }

  lemma {:induction false} PathMore<T>(env: Env<T>, garbage: seq<bool>, e: T, last: nat, depth: nat, loc: nat, x: T, after: seq<bool>,
                                       dropped: Option<T>, path: seq<T>, slots: seq<nat>)
    requires PathOf(env, garbage, x, loc, depth, after, dropped, path, slots) && Crowded(env, garbage, e)
    requires loc in Locations(env, |garbage|, e) && loc < |garbage|
    requires last in Locations(env, |garbage|, e) && Apart(Locations(env, |garbage|, e)) ==> loc != last
    ensures PathOf(env, garbage, e, last, depth + 1, after, dropped, [e] + path, [loc] + slots)
  {
    hide Locations, Apart, Crowded, OneClosed;
    PushedMore(env, garbage, path, slots, e, loc);
  }

  lemma {:induction false} NoneOpen<T>(env: Env<T>, s: State<T>, e: T)
    requires Shaped(s) && FindGarbage(s.garbage, Locations(env, |s.table|, e), 0) == 8
    ensures Crowded(env, s.garbage, e)
  {
    hide Locations;
  }

  lemma {:induction false} PushedMore<T>(env: Env<T>, garbage: seq<bool>, path: seq<T>, slots: seq<nat>, e: T, loc: nat)
    requires Pushed(env, garbage, path, slots) && Crowded(env, garbage, e)
    requires loc in Locations(env, |garbage|, e) && loc < |garbage|
    requires slots != [] && Apart(Locations(env, |garbage|, path[0])) ==> slots[0] != loc
    ensures Pushed(env, garbage, [e] + path, [loc] + slots)
  {
    hide Locations, Apart, Crowded;
    var p, q := [e] + path, [loc] + slots;
    forall i | 0 < i < |q| && Apart(Locations(env, |garbage|, p[i])) ensures q[i] != q[i - 1] {
      assert q[i] == slots[i - 1] && p[i] == path[i - 1];
    }
  }

  /** An insertion drops an element only if it carried as many elements as the depth limit allows, beginning with
      the new one, and none of them had an open slot; the dropped one is the last. */
  lemma {:induction false} DroppedOnlyIfFull<T>(env: Env<T>, s: State<T>, e: T, depthLimit: nat)
      returns (path: seq<T>, slots: seq<nat>)
    requires Shaped(s) && Insert(env, s, e, depthLimit).1.Some?
    ensures var (t, dropped) := Insert(env, s, e, depthLimit); var c := EpochCheck(s);
      && !Has(env, c, e) && t.garbage == c.garbage
      && Pushed(env, c.garbage, path, slots) && |slots| == depthLimit && path[0] == e && path[depthLimit] == dropped.value
  {
    hide Locations, EpochCheck, Displace, Pushed;
    var c := EpochCheck(s);
    HasIsFound(env, c, e);
    path, slots := DisplacePath(env, c, e, true, INVALID, depthLimit);
  }

  // ---------- epochs ----------

  /** Whether the check before an insertion starts a new epoch: the counter has run out and the current epoch has as
      many live entries as an epoch may have. */
  ghost predicate EpochEnds<T>(s: State<T>)
    requires Shaped(s)
  {
    s.counter == 0 && Total(s).young >= s.epochSize
  }

  /** The check gives up the entries of the older epoch, and makes the current one the older, exactly if the epoch
      ends; otherwise no entry changes. After each scan the next one is at least a sixteenth of an epoch away, and
      as far as the current epoch can be filled before. */
  lemma {:induction false} EpochCheckExact<T>(s: State<T>)
    requires Shaped(s)
    ensures var t := EpochCheck(s);
      && t.table == s.table && t.epochSize == s.epochSize
      && (forall i :: 0 <= i < |s.table| ==> t.garbage[i] == (s.garbage[i] || (EpochEnds(s) && !s.young[i])))
      && (forall i :: 0 <= i < |s.table| ==> t.young[i] == (s.young[i] && !EpochEnds(s)))
      && (s.counter > 0 ==> t.counter == s.counter - 1)
      && (s.counter == 0 && EpochEnds(s) ==> t.counter == s.epochSize)
      && (s.counter == 0 && !EpochEnds(s) ==>
        && t.counter >= 1 && t.counter >= s.epochSize / 16 && t.counter + Total(s).young >= s.epochSize
        && (t.counter == 1 || t.counter == s.epochSize / 16 || t.counter + Total(s).young == s.epochSize))
  {
    hide Sum;
    YoungIsSum(s, |s.table|);
  }

  // ---------- erasing ----------

  /** Asking to erase marks one slot that holds the element, if there is one, and nothing else; asking only to look
      changes nothing. */
  lemma {:induction false} ContainsChanges<T>(env: Env<T>, s: State<T>, e: T, erase: bool)
    requires Shaped(s)
    ensures var (t, found) := Contains(env, s, e, erase);
      && (found <==> Has(env, s, e))
      && (!erase || !found ==> t == s)
      && (erase && found ==>
        exists loc :: loc in Locations(env, |s.table|, e) && s.table[loc] == e && t == s.(garbage := s.garbage[loc := true]))
  {
    hide Locations;
    HasIsFound(env, s, e);
    var locs := Locations(env, |s.table|, e);
    var k := FindElement(s.table, locs, e, 0);
    if k < 8 {
      assert locs[k] in locs && s.table[locs[k]] == e;
    }
  }

  // ---------- how long an entry is safe ----------

  ghost predicate LiveIn<T>(s: State<T>, x: T, loc: nat, young: bool) {
    Shaped(s) && loc < |s.table| && s.table[loc] == x && !s.garbage[loc] && s.young[loc] == young
  }

  /** A displaced entry keeps its epoch; it is lost only if it is the one dropped. */
  lemma {:induction false} DisplaceKeepsEntry<T>(env: Env<T>, s: State<T>, e: T, young: bool, last: nat, depth: nat, x: T, flag: bool)
    requires Shaped(s) && ((exists loc :: LiveIn(s, x, loc, flag)) || (x == e && young == flag))
    ensures var (t, dropped) := Displace(env, s, e, young, last, depth);
      dropped == Some(x) || exists loc :: LiveIn(t, x, loc, flag)
    decreases depth
  {
    hide Locations, FindGarbage, FindLocation;
    if depth > 0 {
      var locs := Locations(env, |s.table|, e);
      var free := FindGarbage(s.garbage, locs, 0);
      if free < 8 {
        var t := Put(s, locs[free], e, young);
        if x == e && young == flag {
          assert LiveIn(t, x, locs[free], flag);
        } else {
          var loc :| LiveIn(s, x, loc, flag);
          assert LiveIn(t, x, loc, flag);
        }
      } else {
        var at := locs[(1 + FindLocation(locs, last, 0)) % 8];
        var t := Swapped(s, at, e, young);
        assert !s.garbage[at] by { NoneOpen(env, s, e); }
        if x == e && young == flag {
          assert LiveIn(t, x, at, flag);
        } else {
          var loc :| LiveIn(s, x, loc, flag);
          if loc != at {
            assert LiveIn(t, x, loc, flag);
          }
        }
        DisplaceKeepsEntry(env, t, s.table[at], s.young[at], at, depth - 1, x, flag);
      }
    }
  }

  /** Safe for the next n insertions: in the current epoch, or in the older one with the next scan far enough away. */
  ghost predicate Safe<T>(s: State<T>, x: T, n: nat) {
    Shaped(s) && ((exists loc :: LiveIn(s, x, loc, true)) || (n <= s.counter && exists loc :: LiveIn(s, x, loc, false)))
  }

  lemma {:induction false} CheckedSafe<T>(s: State<T>, x: T, n: nat)
    requires Safe(s, x, n + 1) && n <= s.epochSize
    ensures Safe(EpochCheck(s), x, n)
  {
    hide Sum, EpochCheck;
    EpochCheckExact(s);
    var t := EpochCheck(s);
    if loc :| LiveIn(s, x, loc, true) {
      assert LiveIn(t, x, loc, !EpochEnds(s));
    } else {
      var loc :| LiveIn(s, x, loc, false);
      assert LiveIn(t, x, loc, false);
    }
  }

  lemma {:induction false} InsertSafe<T>(env: Env<T>, s: State<T>, e: T, depthLimit: nat, x: T, n: nat)
    requires Safe(s, x, n + 1) && n <= s.epochSize && Insert(env, s, e, depthLimit).1 != Some(x)
    ensures Safe(Insert(env, s, e, depthLimit).0, x, n) && Insert(env, s, e, depthLimit).0.epochSize == s.epochSize
  {
    hide Locations, EpochCheck, Displace, FindElement;
    var c := EpochCheck(s);
    CheckedSafe(s, x, n);
    InsertParams(env, s, e, depthLimit);
    SameEpochSize(s);
    var t := Insert(env, s, e, depthLimit).0;
    var locs := Locations(env, |c.table|, e);
    var found := FindElement(c.table, locs, e, 0);
    var flag := exists loc :: LiveIn(c, x, loc, true);
    var loc :| LiveIn(c, x, loc, flag);
    if found < 8 {
      if locs[found] == loc {
        assert LiveIn(t, x, loc, true);
      } else {
        assert LiveIn(t, x, loc, flag);
      }
    } else {
      DisplaceKeepsEntry(env, c, e, true, INVALID, depthLimit, x, flag);
    }
  }

  lemma {:induction false} SameEpochSize<T>(s: State<T>)
    requires Shaped(s)
    ensures EpochCheck(s).epochSize == s.epochSize
  {
  }

  /** Over a run: x is never dropped and nobody asks to erase it. */
  ghost predicate Spared<T>(env: Env<T>, s: State<T>, ops: seq<Op<T>>, depthLimit: nat, x: T)
    requires Shaped(s)
    decreases |ops|
  {
    ops == [] ||
    (&& (ops[0].DoInsert? ==> Insert(env, s, ops[0].e, depthLimit).1 != Some(x))
     && (ops[0].DoContains? && ops[0].erase ==> ops[0].e != x)
     && Spared(env, Step(env, s, ops[0], depthLimit), ops[1..], depthLimit, x))
  }

  function Insertions<T>(ops: seq<Op<T>>): nat {
    if ops == [] then 0 else (if ops[0].DoInsert? then 1 else 0) + Insertions(ops[1..])
  }

  lemma {:induction false} ContainsSafe<T>(env: Env<T>, s: State<T>, e: T, erase: bool, x: T, n: nat)
    requires Safe(s, x, n) && !(erase && e == x)
    ensures var t := Contains(env, s, e, erase).0; Safe(t, x, n) && t.epochSize == s.epochSize
  {
    hide Locations, Contains;
    ContainsChanges(env, s, e, erase);
    var t, found := Contains(env, s, e, erase).0, Contains(env, s, e, erase).1;
    if erase && found {
      var at :| at in Locations(env, |s.table|, e) && s.table[at] == e && t == s.(garbage := s.garbage[at := true]);
      if loc :| LiveIn(s, x, loc, true) {
        assert LiveIn(t, x, loc, true);
      } else {
        var loc :| LiveIn(s, x, loc, false);
        assert LiveIn(t, x, loc, false);
      }
    }
  }

  /** An entry of the current epoch outlives an epoch's worth of insertions: whatever is done, unless it is itself
      dropped or erased, it is still live. */
  lemma {:induction false} Survives<T>(env: Env<T>, s: State<T>, ops: seq<Op<T>>, depthLimit: nat, x: T, n: nat)
    requires Safe(s, x, n) && Insertions(ops) <= n <= s.epochSize + 1 && Spared(env, s, ops, depthLimit, x)
    ensures var t := Run(env, s, ops, depthLimit); x in Total(t).live
    decreases |ops|
  {
    hide Insert, Contains, Safe, Sum;
    SafeShaped(s, x, n);
    if ops == [] {
      SafeLives(s, x, n);
    } else {
      match ops[0] {
        case DoInsert(e) =>
          InsertSafe(env, s, e, depthLimit, x, n - 1);
          Survives(env, Step(env, s, ops[0], depthLimit), ops[1..], depthLimit, x, n - 1);
        case DoContains(e, erase) =>
          ContainsSafe(env, s, e, erase, x, n);
          Survives(env, Step(env, s, ops[0], depthLimit), ops[1..], depthLimit, x, n);
      }
    }
  }

  lemma {:induction false} SafeShaped<T>(s: State<T>, x: T, n: nat)
    requires Safe(s, x, n)
    ensures Shaped(s)
  {
  }

  lemma {:induction false} SafeLives<T>(s: State<T>, x: T, n: nat)
    requires Safe(s, x, n)
    ensures x in Total(s).live
  {
    hide Sum;
    var flag := exists loc :: LiveIn(s, x, loc, true);
    var loc :| LiveIn(s, x, loc, flag);
    LiveAt(s, |s.table|, loc);
  }

  /** In particular an element that has found a place is found after the next insertions, as many as an epoch has. */
  lemma {:induction false} FoundForAnEpoch<T>(env: Env<T>, s: State<T>, inserted: set<T>, e: T, ops: seq<Op<T>>, depthLimit: nat)
    requires Inv(env, s, inserted) && depthLimit >= 1
    requires Has(env, EpochCheck(s), e) || Room(env, EpochCheck(s), e)
    requires Insertions(ops) <= s.epochSize && Spared(env, Insert(env, s, e, depthLimit).0, ops, depthLimit, e)
    ensures Contains(env, Run(env, Insert(env, s, e, depthLimit).0, ops, depthLimit), e, false).1
  {
    hide Inv, Insert, Contains, Locations, Sum, EpochCheck, OwnSlots, Known, LoadOk;
    InvShaped(env, s, inserted);
    InsertStores(env, s, e, depthLimit);
    var t, c := Insert(env, s, e, depthLimit).0, EpochCheck(s);
    var loc :| StoredAt(env, c, t, e, loc);
    assert LiveIn(t, e, loc, true);
    InsertParams(env, s, e, depthLimit);
    SameEpochSize(s);
    Survives(env, t, ops, depthLimit, e, s.epochSize);
    InsertKeeps(env, s, inserted, e, depthLimit);
    RunKeeps(env, t, ops, depthLimit, inserted + {e});
    var u := Run(env, t, ops, depthLimit);
    ContainsExact(env, u, inserted + {e} + Inserted(ops), e, false);
  }

  // ---------- slots and epochs ----------

  /** The least hash that is mapped onto a slot. */
  function LeastHash(k: nat, n: nat): nat
    requires n > 0
  {
    (k * TWO32 + n - 1) / n
  }

  lemma {:induction false} Ceiling(a: nat, n: nat)
    requires n > 0
    ensures a <= n * ((a + n - 1) / n) < a + n
  {
  }

  /** Every slot can be reached, and a greater hash is mapped no lower: the hashes are spread over the table in order. */
  lemma {:induction false} SlotsSpread(n: nat, k: nat, x: nat, y: nat)
    requires k < n < TWO32 && x <= y < TWO32
    ensures LeastHash(k, n) < TWO32 && FastRange(LeastHash(k, n), n) == k
    ensures FastRange(x, n) <= FastRange(y, n)
  {
    var h := LeastHash(k, n);
    Ceiling(k * TWO32, n);
    MulLe(TWO32, k + 1, n);
    if h >= TWO32 {
      MulLe(n, TWO32, h);
    }
    QuotientIs(h * n, k);
    MulLe(n, x, y);
    QuotientOrder(x * n, y * n);
  }

  lemma {:induction false} QuotientIs(v: nat, k: nat)
    requires k * TWO32 <= v < (k + 1) * TWO32
    ensures v / TWO32 == k
  {
  }

  lemma {:induction false} QuotientOrder(v: nat, w: nat)
    requires v <= w
    ensures v / TWO32 <= w / TWO32
  {
  }

  /** An epoch takes forty-five hundredths of the table, as long as that does not overflow. */
  lemma {:induction false} EpochShare(size: nat)
    requires 3 <= size && 45 * size < TWO32
    ensures 100 * EpochSize(size) <= 45 * size < 100 * (EpochSize(size) + 1)
  {
  }
}

/** The block index: a tree of blocks with parent and skip pointers, the active chain as a vector over it, and
    the searches that walk them. The reference for all of them is the plain walk along parents. */
module Chain {
  import opened Powers
  import opened ChainSkip

  // ---------- blocks ----------

  class BlockIndex {
    const prev: BlockIndex?
    const height: nat
    var skip: BlockIndex?

    constructor (prev: BlockIndex?, height: nat)
      ensures this.prev == prev && this.height == height && skip == null
    {
      this.prev, this.height, skip := prev, height, null;
    }
  }

  /** Heights count the parents down to a block without one. */
  ghost predicate Rooted(b: BlockIndex)
    decreases b.height
  {
    if b.prev == null then b.height == 0 else b.height == b.prev.height + 1 && Rooted(b.prev)
  }

  /** The reference: walk along the parents. */
  ghost function Ancestor(b: BlockIndex, h: nat): (r: BlockIndex)
    requires Rooted(b) && h <= b.height
    ensures r.height == h && Rooted(r)
    decreases b.height
  {
    if h == b.height then b else Ancestor(b.prev, h)
  }

  ghost predicate IsAncestor(a: BlockIndex, b: BlockIndex)
    requires Rooted(b)
  {
    a.height <= b.height && Ancestor(b, a.height) == a
  }

  /** Every skip pointer that is set leads to the ancestor at the skip height. */
  ghost predicate SkipsOk(tree: set<BlockIndex>)
    reads tree
  {
    forall b :: b in tree ==>
      && Rooted(b)
      && (b.prev != null ==> b.prev in tree)
      && (b.skip != null ==> b.prev != null && b.skip in tree && b.skip == Ancestor(b, GetSkipHeight(b.height)))
  }

  lemma {:induction false} AncestorOfAncestor(b: BlockIndex, h: nat, k: nat)
    requires Rooted(b) && k <= h <= b.height
    ensures Ancestor(Ancestor(b, h), k) == Ancestor(b, k)
    decreases b.height
  {
    if h < b.height {
      AncestorOfAncestor(b.prev, h, k);
    }
  }

  /** Once two branches meet they stay together. */
  lemma {:induction false} MeetBelow(a: BlockIndex, b: BlockIndex, h: nat, k: nat)
    requires Rooted(a) && Rooted(b) && k <= h <= a.height && h <= b.height
    requires Ancestor(a, h) == Ancestor(b, h)
    ensures Ancestor(a, k) == Ancestor(b, k)
  {
    AncestorOfAncestor(a, h, k);
    AncestorOfAncestor(b, h, k);
  }

  lemma {:induction false} ParentStep(b: BlockIndex, p: BlockIndex)
    requires Rooted(b) && IsAncestor(p, b) && p.prev != null
    ensures Rooted(p.prev) && IsAncestor(p.prev, b) && p.prev.height == p.height - 1
  {
    AncestorOfAncestor(b, p.height, p.height - 1);
  }

  /** All skip pointers have been set. */
  ghost predicate Built(tree: set<BlockIndex>)
    reads tree
  {
    forall b :: b in tree && b.prev != null ==> b.skip != null
  }

  /** The skip-list search returns what the parent walk returns. If all skip pointers are set it takes, from a height
      below 2^n, at most n(n + 3) steps. */
  method GetAncestor(b: BlockIndex, height: int, ghost tree: set<BlockIndex>) returns (r: BlockIndex?, ghost steps: nat)
    requires b in tree && SkipsOk(tree)
    ensures height < 0 || height > b.height ==> r == null
    ensures 0 <= height <= b.height ==> r == Ancestor(b, height) && r in tree
    ensures Built(tree) ==> Quick(steps, b.height)
  {
    hide GetSkipHeight, Steps, Quick, NextHeight;
    steps := 0;
    if height > b.height || height < 0 {
      NoSteps(b.height);
      StepsLogSquared(b.height, b.height);
      return null, 0;
    }
    var walk, heightWalk := b, b.height;
    while heightWalk > height
      invariant height <= heightWalk <= b.height && walk in tree && walk.height == heightWalk
      invariant IsAncestor(walk, b)
      invariant Built(tree) ==> steps + Steps(heightWalk, height) == Steps(b.height, height)
    {
      StepsNext(heightWalk, height);
      walk := OneStep(b, walk, height, tree);
      heightWalk := walk.height;
      steps := steps + 1;
    }
    NoSteps(height);
    StepsLogSquared(b.height, height);
    r := walk;
  }

  /** One step of the search: along the skip pointer, unless that of the parent is better. */
  method OneStep(b: BlockIndex, walk: BlockIndex, height: nat, ghost tree: set<BlockIndex>) returns (next: BlockIndex)
    requires SkipsOk(tree) && b in tree && walk in tree && IsAncestor(walk, b) && height < walk.height
    ensures next in tree && IsAncestor(next, b) && height <= next.height < walk.height
    ensures Built(tree) ==> next.height == NextHeight(walk.height, height)
  {
    hide GetSkipHeight;
    var heightSkip := GetSkipHeight(walk.height);
    var heightSkipPrev := GetSkipHeight(walk.height - 1);
    if walk.skip != null
       && (heightSkip == height
           || (heightSkip > height && !(heightSkipPrev < heightSkip - 2 && heightSkipPrev >= height)))
    {
      AncestorOfAncestor(b, walk.height, heightSkip);
      next := walk.skip;
    } else {
      assert walk.prev != null;
      ParentStep(b, walk);
      next := walk.prev;
    }
  }

  lemma {:induction false} StepsNext(w: nat, t: nat)
    requires t < w
    ensures t <= NextHeight(w, t) < w && Steps(w, t) == 1 + Steps(NextHeight(w, t), t)
  {
  }

  lemma {:induction false} NoSteps(t: nat)
    ensures Steps(t, t) == 0
  {
  }

  /** Setting a skip pointer keeps all skip pointers right. */
  method BuildSkip(b: BlockIndex, ghost tree: set<BlockIndex>)
    requires b in tree && SkipsOk(tree)
    modifies b`skip
    ensures SkipsOk(tree)
    ensures b.prev != null ==> b.skip == Ancestor(b, GetSkipHeight(b.height))
    ensures b.prev == null ==> b.skip == old(b.skip)
  {
    hide GetSkipHeight;
    if b.prev != null {
      var skip, _ := GetAncestor(b.prev, GetSkipHeight(b.height), tree);
      AncestorOfAncestor(b, b.height - 1, GetSkipHeight(b.height));
      b.skip := skip;
    }
  }

  /** Adding a block to the tree, the way new headers are indexed. */
  method Append(prev: BlockIndex?, ghost tree: set<BlockIndex>) returns (b: BlockIndex, ghost grown: set<BlockIndex>)
    requires SkipsOk(tree) && (prev != null ==> prev in tree)
    ensures fresh(b) && b.prev == prev && grown == tree + {b} && SkipsOk(grown)
    ensures Built(tree) ==> Built(grown)
    ensures prev != null ==> b.skip == Ancestor(b, GetSkipHeight(b.height))
  {
    hide GetSkipHeight;
    b := new BlockIndex(prev, if prev == null then 0 else prev.height + 1);
    grown := tree + {b};
    BuildSkip(b, grown);
  }

  /** The branches of two blocks differ at all their common heights from lo on. */
  ghost predicate ApartFrom(a: BlockIndex, b: BlockIndex, lo: nat)
    requires Rooted(a) && Rooted(b)
  {
    forall h: nat :: lo <= h <= a.height && h <= b.height ==> Ancestor(a, h) != Ancestor(b, h)
  }

  lemma {:induction false} ApartStep(a: BlockIndex, b: BlockIndex, lo: nat)
    requires Rooted(a) && Rooted(b) && ApartFrom(a, b, lo + 1) && lo <= a.height && lo <= b.height
    requires Ancestor(a, lo) != Ancestor(b, lo)
    ensures ApartFrom(a, b, lo)
  {
  }

  /** The last block that two branches of one tree share. */
  method LastCommonAncestor(a: BlockIndex, b: BlockIndex, ghost tree: set<BlockIndex>) returns (r: BlockIndex)
    requires a in tree && b in tree && SkipsOk(tree)
    requires Ancestor(a, 0) == Ancestor(b, 0)
    ensures IsAncestor(r, a) && IsAncestor(r, b)
    ensures ApartFrom(a, b, r.height + 1)
  {
    var pa: BlockIndex?, pb: BlockIndex? := a, b;
    if a.height > b.height {
      var found, _ := GetAncestor(a, b.height, tree);
      pa := found;
    } else if b.height > a.height {
      var found, _ := GetAncestor(b, a.height, tree);
      pb := found;
    }
    r := Descend(a, b, pa, pb);
  }

  method Descend(a: BlockIndex, b: BlockIndex, first: BlockIndex, second: BlockIndex) returns (r: BlockIndex)
    requires Rooted(a) && Rooted(b) && Ancestor(a, 0) == Ancestor(b, 0)
    requires IsAncestor(first, a) && IsAncestor(second, b) && first.height == second.height
    requires ApartFrom(a, b, first.height + 1)
    ensures IsAncestor(r, a) && IsAncestor(r, b)
    ensures ApartFrom(a, b, r.height + 1)
  {
    hide ApartFrom;
    var pa: BlockIndex?, pb: BlockIndex? := first, second;
    while pa != pb && pa != null && pb != null
      invariant pa != null && pb != null && IsAncestor(pa, a) && IsAncestor(pb, b) && pa.height == pb.height
      invariant ApartFrom(a, b, pa.height + 1)
      decreases if pa == null then 0 else pa.height
    {
      SharedRoot(a, b, pa, pb);
      ApartStep(a, b, pa.height);
      ParentStep(a, pa);
      ParentStep(b, pb);
      pa := pa.prev;
      pb := pb.prev;
    }
    assert pa == pb;
    r := pa;
  }

  lemma {:induction false} SharedRoot(a: BlockIndex, b: BlockIndex, pa: BlockIndex, pb: BlockIndex)
    requires Rooted(a) && Rooted(b) && Ancestor(a, 0) == Ancestor(b, 0)
    requires IsAncestor(pa, a) && IsAncestor(pb, b) && pa.height == pb.height && pa != pb
    ensures pa.height > 0 && pa.prev != null && pb.prev != null
  {
    assert Rooted(Ancestor(a, pa.height)) && Rooted(Ancestor(b, pb.height));
  }

  // ---------- locators ----------

  /** The distance between the locator's entries number k and k + 1. */
  function LocatorStep(k: nat): nat {
    if k <= 10 then 1 else Pow2(k - 10)
  }

  /** The height of entry number k of the locator of a block at height h. */
  function LocatorHeight(h: nat, k: nat): (r: nat)
    ensures r <= h
  {
    if k == 0 then h
    else
      var above := LocatorHeight(h, k - 1);
      if above >= LocatorStep(k - 1) then above - LocatorStep(k - 1) else 0
  }

  /** The heights fall by one eleven times and then by powers of two, so that they are exponentially far below
      the block. */
  lemma {:induction false} LocatorHeights(h: nat, k: nat)
    ensures LocatorHeight(h, k) > 0 ==> LocatorHeight(h, k) == if k <= 10 then h - k else h - 9 - Pow2(k - 10)
  {
    if k > 0 {
      LocatorHeights(h, k - 1);
    }
  }

  /** The ancestors of a block at the locator heights, none of them the root. */
  ghost predicate LocatorPrefix(index: BlockIndex, have: seq<BlockIndex>)
    requires Rooted(index)
  {
    forall k :: 0 <= k < |have| ==> have[k] == Ancestor(index, LocatorHeight(index.height, k)) && have[k].height > 0
  }

  /** A whole locator: the block itself, its ancestors at the locator heights, and at the end, after a number
      of entries that is logarithmic in the height, the root. */
  ghost predicate Locator(index: BlockIndex, have: seq<BlockIndex>)
    requires Rooted(index)
  {
    && |have| > 0 && LocatorPrefix(index, have[..|have| - 1])
    && have[|have| - 1] == Ancestor(index, LocatorHeight(index.height, |have| - 1)) == Ancestor(index, 0)
    && (|have| > 12 ==> Pow2(|have| - 12) + 9 < index.height)
  }

  method LocatorEntries(index: BlockIndex?, ghost tree: set<BlockIndex>) returns (have: seq<BlockIndex>)
    requires SkipsOk(tree) && (index != null ==> index in tree)
    ensures index == null ==> have == []
    ensures index != null ==> Locator(index, have)
  {
    hide LocatorStep, LocatorHeight, Ancestor, Pow2, LocatorPrefix;
    var step := 1;
    have := [];
    if index == null {
      return;
    }
    var walk := index;
    FirstEntry(index);
    while true
      invariant walk in tree && step == LocatorStep(|have|)
      invariant walk == Ancestor(index, LocatorHeight(index.height, |have|))
      invariant LocatorPrefix(index, have)
      decreases walk.height
    {
      ghost var before := have;
      have := have + [walk];
      assert have[..|have| - 1] == before;
      if walk.height == 0 {
        LocatorIsShort(index, have[..|have| - 1]);
        return;
      }
      PrefixMore(index, before, walk);
      walk, step := LocatorDown(index, walk, |have|, step, tree);
    }
  }

  /** From the block just noted, as number n, to the next one and the distance after it. */
  method LocatorDown(index: BlockIndex, walk: BlockIndex, n: nat, step: nat, ghost tree: set<BlockIndex>) returns (next: BlockIndex, nextStep: nat)
    requires index in tree && SkipsOk(tree) && walk in tree && walk.height > 0
    requires n > 0 && step == LocatorStep(n - 1)
    requires walk == Ancestor(index, LocatorHeight(index.height, n - 1))
    ensures next in tree && nextStep == LocatorStep(n) && next.height < walk.height
    ensures next == Ancestor(index, LocatorHeight(index.height, n))
  {
    hide LocatorStep, LocatorHeight, Ancestor, GetSkipHeight;
    NextEntry(index.height, n - 1);
    var height := if walk.height - step >= 0 then walk.height - step else 0;
    AncestorOfAncestor(index, walk.height, height);
    var found, _ := GetAncestor(walk, height, tree);
    next := found;
    nextStep := if n > 10 then step * 2 else step;
  }

  lemma {:induction false} PrefixMore(index: BlockIndex, have: seq<BlockIndex>, walk: BlockIndex)
    requires Rooted(index) && LocatorPrefix(index, have) && walk.height > 0
    requires walk == Ancestor(index, LocatorHeight(index.height, |have|))
    ensures LocatorPrefix(index, have + [walk])
  {
    hide LocatorHeight, Ancestor;
  }

  lemma {:induction false} FirstEntry(index: BlockIndex)
    requires Rooted(index)
    ensures LocatorStep(0) == 1 && LocatorPrefix(index, []) && index == Ancestor(index, LocatorHeight(index.height, 0))
  {
  }

  lemma {:induction false} NextEntry(h: nat, k: nat)
    ensures LocatorStep(k) >= 1
    ensures LocatorStep(k + 1) == if k + 1 > 10 then 2 * LocatorStep(k) else LocatorStep(k)
    ensures var above := LocatorHeight(h, k);
      LocatorHeight(h, k + 1) == if above - LocatorStep(k) >= 0 then above - LocatorStep(k) else 0
  {
  }

  lemma {:induction false} LocatorIsShort(index: BlockIndex, have: seq<BlockIndex>)
    requires Rooted(index) && LocatorPrefix(index, have)
    ensures |have| > 11 ==> Pow2(|have| - 11) + 9 < index.height
  {
    hide LocatorHeight, Ancestor;
    if |have| > 11 {
      LocatorHeights(index.height, |have| - 1);
      assert have[|have| - 1].height > 0;
    }
  }

  // ---------- the active chain ----------

  /** The vector holds exactly the ancestors of the tip, each at its height. */
  ghost predicate Follows(v: seq<BlockIndex?>, tip: BlockIndex) {
    Rooted(tip) && |v| == tip.height + 1 && forall i :: 0 <= i < |v| ==> v[i] == Ancestor(tip, i)
  }

  class ActiveChain {
    var blocks: seq<BlockIndex?>

    ghost predicate Valid()
      reads this
    {
      blocks != [] ==> blocks[|blocks| - 1] != null && Follows(blocks, blocks[|blocks| - 1])
    }

    constructor ()
      ensures Valid() && blocks == []
    {
      blocks := [];
    }

    function Height(): int
      reads this
    {
      |blocks| - 1
    }

    /** A block is in the chain exactly when it is an ancestor of the tip. */
    method Contains(b: BlockIndex) returns (r: bool)
      requires Valid() && Rooted(b)
      ensures r <==> blocks != [] && IsAncestor(b, blocks[|blocks| - 1])
    {
      r := b.height < |blocks| && blocks[b.height] == b;
    }

    method Next(b: BlockIndex) returns (r: BlockIndex?)
      requires Valid() && Rooted(b)
      ensures r != null ==> blocks != [] && Rooted(r) && r.prev == b && IsAncestor(r, blocks[|blocks| - 1])
      ensures r == null ==> blocks == [] || !IsAncestor(b, blocks[|blocks| - 1]) || b == blocks[|blocks| - 1]
    {
      var here := Contains(b);
      if here && b.height + 1 < |blocks| {
        ghost var tip := blocks[|blocks| - 1];
        r := blocks[b.height + 1];
        AncestorOfAncestor(tip, b.height + 1, b.height);
        assert Ancestor(r, b.height) == r.prev;
      } else {
        r := null;
      }
    }

    /** The early stop loses nothing: below a block that is already in place everything is. */
    method SetTip(block: BlockIndex)
      requires Valid() && Rooted(block)
      modifies this
      ensures Follows(blocks, block)
    {
      ghost var was := blocks;
      blocks := Resized(blocks, block.height + 1);
      var p: BlockIndex? := block;
      while p != null && blocks[p.height] != p
        invariant |blocks| == block.height + 1
        invariant p != null ==> Rooted(p) && IsAncestor(p, block)
        invariant forall i :: (if p == null then 0 else p.height + 1) <= i < |blocks| ==> blocks[i] == Ancestor(block, i)
        invariant p != null ==> forall i :: 0 <= i <= p.height ==> blocks[i] == if i < |was| then was[i] else null
        decreases if p == null then 0 else p.height + 1
      {
        if p.prev != null {
          ParentStep(block, p);
        }
        blocks := blocks[p.height := p];
        p := p.prev;
      }
      if p != null {
        ghost var tip := was[|was| - 1];
        forall i | 0 <= i <= p.height ensures blocks[i] == Ancestor(block, i) {
          MeetBelow(tip, block, p.height, i);
        }
      }
    }

    /** The highest block of the chain that is an ancestor of the given one. */
    method FindFork(b: BlockIndex?, ghost tree: set<BlockIndex>) returns (r: BlockIndex?)
      requires Valid() && SkipsOk(tree) && (b != null ==> b in tree)
      ensures b == null ==> r == null
      ensures r != null ==> IsAncestor(r, b) && blocks != [] && IsAncestor(r, blocks[|blocks| - 1])
      ensures b != null && blocks != [] ==> OutsideFrom(b, blocks[|blocks| - 1], if r == null then 0 else r.height + 1)
    {
      if b == null {
        return null;
      }
      var p: BlockIndex? := b;
      if b.height > Height() {
        var found, _ := GetAncestor(b, Height(), tree);
        p := found;
      }
      if p == null {
        return null;
      }
      r := FirstContained(b, p);
    }

    /** Walks down from an ancestor of b to the first block of the chain. */
    method FirstContained(b: BlockIndex, start: BlockIndex) returns (r: BlockIndex?)
      requires Valid() && blocks != [] && Rooted(b) && IsAncestor(start, b)
      requires OutsideFrom(b, blocks[|blocks| - 1], start.height + 1)
      ensures r != null ==> IsAncestor(r, b) && IsAncestor(r, blocks[|blocks| - 1])
      ensures OutsideFrom(b, blocks[|blocks| - 1], if r == null then 0 else r.height + 1)
    {
      hide OutsideFrom;
      ghost var tip := blocks[|blocks| - 1];
      var found := Contains(start);
      r := start;
      while r != null && !found
        invariant r != null ==> Rooted(r) && IsAncestor(r, b) && (found <==> IsAncestor(r, tip))
        invariant OutsideFrom(b, tip, if r == null then 0 else r.height + 1)
        decreases if r == null then 0 else r.height + 1
      {
        OutsideStep(b, tip, r.height);
        if r.prev != null {
          ParentStep(b, r);
        }
        r := r.prev;
        if r != null {
          found := Contains(r);
        }
      }
    }
  }

  /** No ancestor of b from height lo on is an ancestor of the tip. */
  ghost predicate OutsideFrom(b: BlockIndex, tip: BlockIndex, lo: nat)
    requires Rooted(b) && Rooted(tip)
  {
    forall h: nat :: lo <= h <= b.height ==> !IsAncestor(Ancestor(b, h), tip)
  }

  lemma {:induction false} OutsideStep(b: BlockIndex, tip: BlockIndex, lo: nat)
    requires Rooted(b) && Rooted(tip) && lo <= b.height && OutsideFrom(b, tip, lo + 1)
    requires !IsAncestor(Ancestor(b, lo), tip)
    ensures OutsideFrom(b, tip, lo)
  {
  }

  function Resized(v: seq<BlockIndex?>, n: nat): (r: seq<BlockIndex?>)
    ensures |r| == n && forall i :: 0 <= i < n ==> r[i] == if i < |v| then v[i] else null
  {
    if n <= |v| then v[..n] else v + seq(n - |v|, _ => null)
  }
}

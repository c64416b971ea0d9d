/**
  An eviction never gets stuck: at every moment the directory to be purged next
  can be listed, so that there is a next state.
 */
module CacheListing {
  import opened Fts
  import opened CacheLoad
  import opened CacheFacts
  import opened CacheMix
  import opened CachePurge
  import opened CacheEvict

  /** Whatever exists, the directories above it exist. */
  ghost predicate Rooted(fs: CacheMap) {
    forall q, k :: q in fs && 0 <= k < |q| ==> q[..k] in fs
  }

  lemma {:induction false} RootedAbove(fs: CacheMap, p: Path, q: Path)
    requires Rooted(fs)
    ensures p <= q && q in fs ==> p in fs
  {
    if p <= q && p != q && q in fs {
      assert q[..|p|] == p;
    }
  }

  // ----- what is left of a tree, as a tree

  function Prune(t: CacheTree, p: Path, fs: CacheMap): CacheTree
    decreases t, 1
  {
    t.(attr := if p in fs then fs[p].attr else t.attr, kids := PruneForest(t.kids, p, fs))
  }

  function PruneForest(ts: seq<CacheTree>, p: Path, fs: CacheMap): seq<CacheTree>
    decreases ts, 0
  {
    if ts == [] then []
    else
      var p0 := p + [ts[0].name];
      (if p0 in fs then [Prune(ts[0], p0, fs)] else []) + PruneForest(ts[1..], p, fs)
  }

  lemma {:induction false} PruneWellFormed(t: CacheTree, p: Path, fs: CacheMap)
    requires WellFormed(t)
    ensures WellFormed(Prune(t, p, fs))
    decreases t, 1
  {
    PruneForestWellFormed(t.kids, p, fs);
    if t.kids == [] {
      assert PruneForest(t.kids, p, fs) == [];
    }
  }

  lemma {:induction false} PruneForestWellFormed(ts: seq<CacheTree>, p: Path, fs: CacheMap)
    requires WellFormedForest(ts)
    ensures WellFormedForest(PruneForest(ts, p, fs))
    ensures forall k :: 0 <= k < |PruneForest(ts, p, fs)| ==>
              exists j :: 0 <= j < |ts| && ts[j].name == PruneForest(ts, p, fs)[k].name
    decreases ts, 0
  {
    if ts != [] {
      var p0, rest := p + [ts[0].name], PruneForest(ts[1..], p, fs);
      PruneWellFormed(ts[0], p0, fs);
      PruneForestWellFormed(ts[1..], p, fs);
      forall k | 0 <= k < |rest|
        ensures exists j :: 1 <= j < |ts| && ts[j].name == rest[k].name
      {
        var j :| 0 <= j < |ts[1..]| && ts[1..][j].name == rest[k].name;
        assert ts[j + 1].name == rest[k].name;
      }
      var all := PruneForest(ts, p, fs);
      assert p0 in fs ==> all[1..] == rest;
      assert p0 !in fs ==> all == rest;
    }
  }

  /** `fs` knows every entry of `f` that it holds by its kind. */
  ghost predicate SameKinds(f: CacheMap, fs: CacheMap) {
    forall q :: q in f && q in fs ==> f[q].kind == fs[q].kind
  }

  lemma {:induction false} PruneFlat(t: CacheTree, p: Path, fs: CacheMap, q: Path)
    requires WellFormed(t) && p in fs && Rooted(fs) && SameKinds(Flat(t, p), fs)
    ensures q in Flat(Prune(t, p, fs), p) <==> q in Flat(t, p) && q in fs
    ensures q in Flat(Prune(t, p, fs), p) ==> Flat(Prune(t, p, fs), p)[q] == fs[q]
    decreases t, 1
  {
    assert p in Flat(t, p) && Flat(t, p)[p].kind == t.kind;
    forall r | r in FlatForest(t.kids, p)
      ensures r in Flat(t, p) && Flat(t, p)[r] == FlatForest(t.kids, p)[r]
    {
      FlatForestUnder(t.kids, p, r);
    }
    PruneForestFlat(t.kids, p, fs, q);
  }

  lemma {:induction false} PruneForestFlat(ts: seq<CacheTree>, p: Path, fs: CacheMap, q: Path)
    requires WellFormedForest(ts) && Rooted(fs) && SameKinds(FlatForest(ts, p), fs)
    ensures q in FlatForest(PruneForest(ts, p, fs), p) <==> q in FlatForest(ts, p) && q in fs
    ensures q in FlatForest(PruneForest(ts, p, fs), p) ==> FlatForest(PruneForest(ts, p, fs), p)[q] == fs[q]
    decreases ts, 0
  {
    if ts != [] {
      var p0, rest := p + [ts[0].name], PruneForest(ts[1..], p, fs);
      ContainsParts(FlatForest(ts, p), ts, p);
      FlatForestSplit(ts, p, q);
      PruneForestFlat(ts[1..], p, fs, q);
      var all := PruneForest(ts, p, fs);
      PruneForestWellFormed(ts, p, fs);
      if p0 in fs {
        assert all[1..] == rest;
        PruneFlat(ts[0], p0, fs, q);
        FlatForestSplit(all, p, q);
      } else {
        assert all == rest;
        if q in Flat(ts[0], p0) {
          FlatUnder(ts[0], p0, q);
        }
        RootedAbove(fs, p0, q);
      }
    }
  }

  // ----- the part of a tree at a path

  lemma {:induction false} SubtreeAt(t: CacheTree, p: Path, q: Path) returns (u: CacheTree)
    requires WellFormed(t) && q in Flat(t, p)
    ensures WellFormed(u) && u.kind == Flat(t, p)[q].kind
    ensures SameUnder(Flat(t, p), Flat(u, q), q)
    decreases t, 1
  {
    FlatUnder(t, p, q);
    if q == p {
      u := t;
    } else {
      u := SubtreeIn(t.kids, p, q);
      forall r: Path | q <= r
        ensures Same(Flat(t, p), Flat(u, q), r)
      {
        assert r != p;
        assert Same(FlatForest(t.kids, p), Flat(u, q), r);
      }
    }
  }

  lemma {:induction false} SubtreeIn(ts: seq<CacheTree>, p: Path, q: Path) returns (u: CacheTree)
    requires WellFormedForest(ts) && q in FlatForest(ts, p)
    ensures WellFormed(u) && u.kind == FlatForest(ts, p)[q].kind
    ensures SameUnder(FlatForest(ts, p), Flat(u, q), q)
    decreases ts, 0
  {
    var p0 := p + [ts[0].name];
    FlatForestSplit(ts, p, q);
    FlatForestUnder(ts, p, q);
    var f: CacheMap;
    if p0 <= q {
      u := SubtreeAt(ts[0], p0, q);
      f := Flat(ts[0], p0);
    } else {
      u := SubtreeIn(ts[1..], p, q);
      f := FlatForest(ts[1..], p);
    }
    forall r: Path | q <= r
      ensures Same(FlatForest(ts, p), Flat(u, q), r)
    {
      FlatForestSplit(ts, p, r);
      assert !(p0 <= q) ==> !(p0 <= r) by {
        if p0 <= r {
          assert r[..|p| + 1] == p0 && q[..|p| + 1] == r[..|p| + 1];
        }
      }
      assert Same(f, Flat(u, q), r);
    }
  }

  // ----- every state of an eviction can go on

  /** A directory that still exists can be listed. */
  lemma {:induction false} CanList(root: CacheTree, fs: CacheMap, p: Path) returns (t: CacheTree)
    requires WellFormed(root) && Intact(Below(root), Entry(root.kind, root.attr), fs) && Rooted(fs)
    requires p in fs && fs[p].kind.Dir?
    ensures Lists(t, p, fs)
  {
    var all := Flat(root, []);
    assert SameKinds(all, fs);
    var u := SubtreeAt(root, [], p);
    assert SameKinds(Flat(u, p), fs) by {
      forall q | q in Flat(u, p) && q in fs
        ensures Flat(u, p)[q].kind == fs[q].kind
      {
        FlatUnder(u, p, q);
        assert Same(all, Flat(u, p), q);
      }
    }
    t := Prune(u, p, fs);
    PruneWellFormed(u, p, fs);
    forall q: Path | p <= q
      ensures Same(fs, Flat(t, p), q)
    {
      PruneFlat(u, p, fs, q);
      assert Same(all, Flat(u, p), q);
    }
  }

  lemma {:induction false} CanPurge(root: CacheTree, fs: CacheMap, it: Item) returns (fs': CacheMap)
    requires WellFormed(root) && Intact(Below(root), Entry(root.kind, root.attr), fs) && Rooted(fs)
    requires it.path in fs && Describes(Below(root), it, false) && it.path != []
    ensures PurgeItem(fs, it, fs')
  {
    if it.directory {
      var t := CanList(root, fs, it.path);
      fs' := Swept(fs, it, t).fs;
    } else {
      fs' := if it.tombstone then Truncate(fs, it.path) else fs - {it.path};
    }
  }

  lemma {:induction false} KeptRooted(m: CacheMap, q: Path, k: nat)
    requires TreeLike(m) && Kept(m, q) && 1 <= k < |q|
    ensures Kept(m, q[..k])
  {
    var up := q[..k];
    assert q in m;
    assert up in m && m[up].kind.Dir?;
    if KeptFile(m, q) {
      assert up < q;
    } else {
      var r :| r in m && q < r && KeptFile(m, r);
      assert up < r;
    }
  }

  lemma {:induction false} PurgeRooted(m: CacheMap, top: Entry<CacheAttr>, fs: CacheMap, it: Item, fs': CacheMap)
    requires TreeLike(m) && Intact(m, top, fs) && Describes(m, it, false) && it.path != [] && PurgeItem(fs, it, fs')
    requires Rooted(fs)
    ensures Rooted(fs')
  {
    hide KeptFile, Leads;
    forall q, k | q in fs' && 0 <= k < |q|
      ensures q[..k] in fs'
    {
      if it.directory {
        PrefixKept(m, top, fs, it, fs', q, k);
      } else {
        PurgeLeafIntact(m, top, fs, it, fs');
        assert q[..k] in fs;
        NothingBelow(m, it, q);
      }
    }
  }

  lemma {:induction false} PrefixKept(m: CacheMap, top: Entry<CacheAttr>, fs: CacheMap, it: Item, fs': CacheMap,
                                      q: Path, k: nat)
    requires TreeLike(m) && Intact(m, top, fs) && Describes(m, it, false) && it.path != [] && it.directory
    requires PurgeItem(fs, it, fs') && Rooted(fs) && q in fs' && k < |q|
    ensures q[..k] in fs'
  {
    hide Swept, Describes, Intact;
    var t :| Lists(t, it.path, fs) && fs' == Swept(fs, it, t).fs;
    PurgeDirPrunes(m, top, fs, it, t, q);
    PurgeDirPrunes(m, top, fs, it, t, q[..k]);
    assert q in fs && q[..k] in fs;
    if it.path <= q[..k] {
      assert it.path <= q;
      KeptRooted(m, q, k);
    }
  }

  lemma {:induction false} FramesRooted(root: CacheTree, order: seq<Item>, fss: seq<CacheMap>, k: nat)
    requires WellFormed(root) && EvictsBelowFirst(root, order) && PurgeRun(order, fss) && k < |fss|
    requires fss[0] == Flat(root, [])
    ensures Rooted(fss[k])
    decreases k
  {
    hide PurgeItem, EvictsBelowFirst, Rooted, Cleared, Describes, TreeLike, Intact, Below, Flat;
    if k == 0 {
      FlatRooted(root);
    } else {
      FramesRooted(root, order, fss, k - 1);
      PurgeUnderway(root, order, fss, k - 1);
      OrderDescribes(root, order, k - 1);
      BelowIsTreeLike(root);
      assert PurgeItem(fss[k - 1], order[k - 1], fss[k - 1 + 1]);
      PurgeRooted(Below(root), Entry(root.kind, root.attr), fss[k - 1], order[k - 1], fss[k]);
    }
  }

  lemma {:induction false} FlatRooted(root: CacheTree)
    requires WellFormed(root)
    ensures Rooted(Flat(root, []))
  {
    var m := Flat(root, []);
    forall q, k | q in m && 0 <= k < |q|
      ensures q[..k] in m
    {
      FlatPrefix(root, [], q, k);
    }
  }

  /** Whatever was purged so far, the next item can be purged. */
  lemma {:induction false} EvictionGoesOn(trees: seq<CacheTree>, order: seq<Tagged>, fss: seq<seq<CacheMap>>)
    returns (fs: seq<CacheMap>)
    requires AllWellFormed(trees) && FromWalks(trees, order) && BelowFirst(order)
    requires Eviction(trees, order, fss) && |fss| <= |order|
    ensures Eviction(trees, order, fss + [fs])
  {
    hide PurgeItem, EvictsBelowFirst, Rooted;
    var n := |fss| - 1;
    var tag := order[n];
    var r := tag.root;
    FramesRun(trees, order, fss, r);
    FramesStart(trees, order, fss, r);
    OneWalk(trees, order, r);
    PurgeFindsItsPath(trees, order, fss, n);
    var own, frames := Project(order, r), Frames(trees, order, fss, r);
    FramesRooted(trees[r], own, frames, |frames| - 1);
    PurgeUnderway(trees[r], own, frames, |frames| - 1);
    NextOwn(order, n);
    OrderDescribes(trees[r], own, |Project(order[..n], r)|);
    var next := CanPurge(trees[r], fss[n][r], tag.it);
    fs := fss[n][r := next];
    Longer(trees, order, fss, fs);
  }

  lemma {:induction false} Longer(trees: seq<CacheTree>, order: seq<Tagged>, fss: seq<seq<CacheMap>>, fs: seq<CacheMap>)
    requires Eviction(trees, order, fss) && |fss| <= |order| && PurgeTagged(fss[|fss| - 1], order[|fss| - 1], fs)
    ensures Eviction(trees, order, fss + [fs])
  {
    hide PurgeItem;
    var f := fss + [fs];
    forall k | 0 <= k < |f| - 1
      ensures PurgeTagged(f[k], order[k], f[k + 1])
    {
      assert k < |fss| - 1 ==> PurgeTagged(fss[k], order[k], fss[k + 1]);
    }
  }

  /** Every pop order has a complete eviction. */
  lemma {:induction false} EvictionExists(trees: seq<CacheTree>, order: seq<Tagged>) returns (fss: seq<seq<CacheMap>>)
    requires AllWellFormed(trees) && FromWalks(trees, order) && BelowFirst(order)
    ensures Eviction(trees, order, fss) && |fss| == |order| + 1
  {
    hide PurgeItem, FromWalks, BelowFirst, AllWellFormed;
    fss := [seq(|trees|, r requires 0 <= r < |trees| => Flat(trees[r], []))];
    while |fss| <= |order|
      invariant Eviction(trees, order, fss)
      decreases |order| + 1 - |fss|
    {
      var fs := EvictionGoesOn(trees, order, fss);
      fss := fss + [fs];
    }
  }
}

/**
  A whole eviction of one tracker: the items of all its walks, purged in the
  order the sorted vector is popped, each in the tree of its own walk.  The
  walks' roots are different directories, none inside another.
 */
module CacheEvict {
  import opened Fts
  import opened CacheLoad
  import opened CacheFacts
  import opened CacheMix
  import opened CachePurge

  ghost predicate AllWellFormed(trees: seq<CacheTree>) {
    forall r :: 0 <= r < |trees| ==> WellFormed(trees[r])
  }

  /** One purge changes the tree of the item's walk and no other. */
  ghost predicate PurgeTagged(fs: seq<CacheMap>, tag: Tagged, fs': seq<CacheMap>) {
    && tag.root < |fs| && |fs'| == |fs|
    && PurgeItem(fs[tag.root], tag.it, fs'[tag.root])
    && fs' == fs[tag.root := fs'[tag.root]]
  }

  /** The first purges of `order`, one after another, over all trees. */
  ghost predicate Eviction(trees: seq<CacheTree>, order: seq<Tagged>, fss: seq<seq<CacheMap>>) {
    && 1 <= |fss| <= |order| + 1
    && |fss[0]| == |trees| && (forall r :: 0 <= r < |trees| ==> fss[0][r] == Flat(trees[r], []))
    && forall k :: 0 <= k < |fss| - 1 ==> PurgeTagged(fss[k], order[k], fss[k + 1])
  }

  lemma {:induction false} SameWidth(trees: seq<CacheTree>, order: seq<Tagged>, fss: seq<seq<CacheMap>>, k: nat)
    requires Eviction(trees, order, fss) && k < |fss|
    ensures |fss[k]| == |trees|
  {
    if k > 0 {
      SameWidth(trees, order, fss, k - 1);
      assert PurgeTagged(fss[k - 1], order[k - 1], fss[k - 1 + 1]);
    }
  }

  /** The tree of walk `r` at the start and after each purge of one of its items. */
  ghost function Frames(trees: seq<CacheTree>, order: seq<Tagged>, fss: seq<seq<CacheMap>>, r: nat): seq<CacheMap>
    requires Eviction(trees, order, fss) && r < |trees|
    decreases |fss|
  {
    var n := |fss| - 1;
    SameWidth(trees, order, fss, n);
    if n == 0 then [fss[0][r]]
    else
      Frames(trees, order, fss[..n], r) + if order[n - 1].root == r then [fss[n][r]] else []
  }

  /** Seen from one walk, an eviction of all is an eviction of its own items. */
  lemma {:induction false} FramesRun(trees: seq<CacheTree>, order: seq<Tagged>, fss: seq<seq<CacheMap>>, r: nat)
    requires Eviction(trees, order, fss) && r < |trees|
    ensures |fss[|fss| - 1]| == |trees|
    ensures var f := Frames(trees, order, fss, r);
            && |f| == |Project(order[..|fss| - 1], r)| + 1
            && f[0] == Flat(trees[r], []) && f[|f| - 1] == fss[|fss| - 1][r]
            && PurgeRun(Project(order[..|fss| - 1], r), f)
    decreases |fss|
  {
    hide PurgeItem, Flat;
    var n := |fss| - 1;
    SameWidth(trees, order, fss, n);
    if n > 0 {
      FramesRun(trees, order, fss[..n], r);
      assert PurgeTagged(fss[n - 1], order[n - 1], fss[n - 1 + 1]);
      assert order[..n][..n - 1] == order[..n - 1] && fss[..n][n - 1] == fss[n - 1];
      var own, f := Project(order[..n - 1], r), Frames(trees, order, fss[..n], r);
      if order[n - 1].root == r {
        assert Project(order[..n], r) == own + [order[n - 1].it];
        assert Frames(trees, order, fss, r) == f + [fss[n][r]];
        RunLonger(own, order[n - 1].it, f, fss[n][r]);
      } else {
        assert Project(order[..n], r) == own;
        assert Frames(trees, order, fss, r) == f;
      }
    }
  }

  lemma {:induction false} RunLonger(own: seq<Item>, it: Item, f: seq<CacheMap>, fs: CacheMap)
    requires PurgeRun(own, f) && |f| == |own| + 1 && PurgeItem(f[|f| - 1], it, fs)
    ensures PurgeRun(own + [it], f + [fs])
  {
    hide PurgeItem;
  }

  /** The purges done so far of one walk, as the first purges of all of its items. */
  lemma {:induction false} FramesStart(trees: seq<CacheTree>, order: seq<Tagged>, fss: seq<seq<CacheMap>>, r: nat)
    requires Eviction(trees, order, fss) && r < |trees|
    ensures PurgeRun(Project(order, r), Frames(trees, order, fss, r))
    ensures |Frames(trees, order, fss, r)| == |Project(order[..|fss| - 1], r)| + 1
  {
    hide PurgeItem;
    FramesRun(trees, order, fss, r);
    ProjectPrefix(order, |fss| - 1, r);
  }

  lemma {:induction false} OneWalk(trees: seq<CacheTree>, order: seq<Tagged>, r: nat)
    requires FromWalks(trees, order) && BelowFirst(order) && r < |trees|
    ensures EvictsBelowFirst(trees[r], Project(order, r))
  {
    var own := Project(order, r);
    forall i, j | 0 <= i < j < |own|
      ensures !(own[i].path < own[j].path)
    {
      ProjectBelowFirst(order, r, i, j);
    }
  }

  /** How far the eviction of one walk has come. */
  lemma {:induction false} WalkUnderway(trees: seq<CacheTree>, order: seq<Tagged>, fss: seq<seq<CacheMap>>, r: nat)
    requires AllWellFormed(trees) && FromWalks(trees, order) && BelowFirst(order)
    requires Eviction(trees, order, fss) && r < |trees|
    ensures |fss[|fss| - 1]| == |trees|
    ensures Underway(trees[r], Project(order, r), fss[|fss| - 1][r], |Project(order[..|fss| - 1], r)|)
  {
    hide PurgeItem, Underway, EvictsBelowFirst;
    FramesRun(trees, order, fss, r);
    FramesStart(trees, order, fss, r);
    OneWalk(trees, order, r);
    PurgeUnderway(trees[r], Project(order, r), Frames(trees, order, fss, r), |Project(order[..|fss| - 1], r)|);
  }

  /** When an item's turn comes, its path still exists. */
  lemma {:induction false} PurgeFindsItsPath(trees: seq<CacheTree>, order: seq<Tagged>, fss: seq<seq<CacheMap>>, k: nat)
    requires AllWellFormed(trees) && FromWalks(trees, order) && BelowFirst(order)
    requires Eviction(trees, order, fss) && k < |fss| && k < |order|
    ensures order[k].root < |trees| == |fss[k]| && order[k].it.path in fss[k][order[k].root]
  {
    hide PurgeItem;
    var r := order[k].root;
    EvictionPrefix(trees, order, fss, k);
    WalkUnderway(trees, order, fss[..k + 1], r);
    NextOwn(order, k);
    assert Project(order, r)[|Project(order[..k], r)|] == order[k].it;
  }

  lemma {:induction false} EvictionPrefix(trees: seq<CacheTree>, order: seq<Tagged>, fss: seq<seq<CacheMap>>, k: nat)
    requires Eviction(trees, order, fss) && k < |fss|
    ensures Eviction(trees, order, fss[..k + 1]) && |fss[k]| == |trees|
  {
    hide PurgeItem;
    SameWidth(trees, order, fss, k);
    var f := fss[..k + 1];
    forall j | 0 <= j < |f| - 1
      ensures PurgeTagged(f[j], order[j], f[j + 1])
    {
      assert PurgeTagged(fss[j], order[j], fss[j + 1]);
    }
  }

  /** The item at `k` is the next one of its walk. */
  lemma {:induction false} NextOwn(order: seq<Tagged>, k: nat)
    requires k < |order|
    ensures var r := order[k].root;
            |Project(order[..k], r)| < |Project(order, r)| && Project(order, r)[|Project(order[..k], r)|] == order[k].it
  {
    var r := order[k].root;
    assert order[..k + 1][..k] == order[..k];
    ProjectPrefix(order, k + 1, r);
  }

  /** Purging everything in pop order leaves under each root just what tombstones keep, grouped or not. */
  lemma {:induction false} PurgeAllLeaves(trees: seq<CacheTree>, order: seq<Tagged>, fss: seq<seq<CacheMap>>, r: nat,
                                          q: Path)
    requires AllWellFormed(trees) && FromWalks(trees, order) && BelowFirst(order)
    requires Eviction(trees, order, fss) && |fss| == |order| + 1 && r < |trees|
    ensures |fss[|order|]| == |trees| && Leaves(trees[r], fss[|order|][r], q)
  {
    hide PurgeItem, Leaves, EvictsBelowFirst;
    assert order[..|fss| - 1] == order;
    FramesRun(trees, order, fss, r);
    OneWalk(trees, order, r);
    OneRootLeaves(trees[r], Project(order, r), Frames(trees, order, fss, r), q);
  }
}

/**
  What a call of freeCache with DEFY_QUOTA does to the files of every app when
  no measurement stops it early: the scheduler, the sorted vectors and the
  purges put together.
 */
module FullEviction {
  import CacheEvict
  import CacheFacts
  import CacheListing
  import CacheLoad
  import CachePurge
  import opened Bounce
  import opened CacheItems
  import opened CacheMix
  import FreeCache

  /** The entries a tracker loaded at `positions`, in that order. */
  function At(loaded: seq<Tagged>, positions: seq<nat>): seq<Tagged>
    requires forall k :: 0 <= k < |positions| ==> positions[k] < |loaded|
  {
    seq(|positions|, k requires 0 <= k < |positions| => loaded[positions[k]])
  }

  /** The scheduler ran to its end, and `trackers` are what it left. */
  ghost predicate Complete(trackers: seq<CacheTracker>, c: Config, run: seq<State>)
    reads trackers, FreeCache.ItemsOf(trackers)
  {
    && run != [] && IsRun(c, run) && c.defyQuota
    && run[|run| - 1].outcome != Running && run[|run| - 1].outcome != Freed
    && FreeCache.AllValid(trackers) && FreeCache.Mirrors(trackers, run[|run| - 1].ts)
    && FreeCache.Counted(trackers, run[|run| - 1].lists)
  }

  /** Each tracker was loaded, and its entries were popped each once, in the reverse of their sorted order. */
  lemma {:induction false} PopsInReverse(trackers: seq<CacheTracker>, c: Config, run: seq<State>, i: nat)
    requires Complete(trackers, c, run) && i < |trackers|
    ensures trackers[i].itemsLoaded && trackers[i].Valid()
    ensures var loaded, popped := trackers[i].loaded, Positions(run[|run| - 1].log, i);
            (forall k :: 0 <= k < |popped| ==> popped[k] < |loaded|) && At(loaded, popped) == Reverse(loaded)
  {
    hide Positions, FreeCache.Value;
    var n := |run| - 1;
    assert |run[0].ts| == |run[n].ts| by { RunSize(c, run, n); }
    DefyingQuotaPurgesAll(c, run, n, i);
    assert trackers[i].itemsLoaded by { FreeCache.LoadedMirrored(trackers, run[n].ts, i); }
    var loaded := trackers[i].loaded;
    assert Positions(run[n].log, i) == Downward(|loaded|, 0);
    assert At(loaded, Downward(|loaded|, 0)) == Reverse(loaded);
  }

  /** Under each root, just what tombstones keep. */
  ghost predicate OnlyKept(trees: seq<CacheLoad.CacheTree>, fs: seq<CacheFacts.CacheMap>) {
    |fs| == |trees| && forall r: nat, q :: r < |trees| ==> CachePurge.Leaves(trees[r], fs[r], q)
  }

  /**
    Under every root of every tracker nothing is left but the root, the regular
    files with a tombstone above them, emptied, and the directories leading to
    them; and such purges exist.
   */
  lemma {:induction false} ClearsEveryRoot(trackers: seq<CacheTracker>, c: Config, run: seq<State>, i: nat)
    requires Complete(trackers, c, run) && i < |trackers|
    ensures var trees, order := TreesOf(trackers[i].roots), Reverse(trackers[i].loaded);
            && (exists fss :: CacheEvict.Eviction(trees, order, fss) && |fss| == |order| + 1)
            && forall fss :: CacheEvict.Eviction(trees, order, fss) && |fss| == |order| + 1 ==>
                 OnlyKept(trees, fss[|order|])
  {
    hide CacheEvict.Eviction, CachePurge.Leaves, MixSorted, FromWalks, BelowFirst, Reverse;
    PopsInReverse(trackers, c, run, i);
    var trees, order := TreesOf(trackers[i].roots), Reverse(trackers[i].loaded);
    assert CacheEvict.AllWellFormed(trees);
    PopOrder(trees, trackers[i].loaded);
    var some := CacheListing.EvictionExists(trees, order);
    forall fss | CacheEvict.Eviction(trees, order, fss) && |fss| == |order| + 1
      ensures OnlyKept(trees, fss[|order|])
    {
      CacheEvict.SameWidth(trees, order, fss, |order|);
      forall r: nat, q | r < |trees|
        ensures CachePurge.Leaves(trees[r], fss[|order|][r], q)
      {
        CacheEvict.PurgeAllLeaves(trees, order, fss, r, q);
      }
    }
  }

  /** A call that defies quotas and is not stopped by a measurement is complete. */
  method FreeDefyingQuotas(trackers: seq<CacheTracker>, c: Config, noop: bool, disk: nat -> int)
    returns (status: FreeCache.Status, purged: seq<string>, ghost run: seq<State>)
    requires FreeCache.Apart(trackers) && FreeCache.AllValid(trackers) && c.defyQuota
    requires forall i :: 0 <= i < |trackers| ==> !trackers[i].itemsLoaded
    modifies trackers
    ensures run != [] && run[|run| - 1].outcome != Freed ==> Complete(trackers, c, run)
    ensures run != [] ==> FreeCache.PathsOf(trackers, noop, run[|run| - 1].log, purged)
  {
    var last;
    status, last, purged, run := FreeCache.Call(trackers, c, noop, true, disk);
  }
}

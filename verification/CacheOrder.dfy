/**
  The order in which items are evicted: the comparator of
  CacheTracker::loadItems, and why popping from the back of its order purges
  everything below a directory before the directory itself.
 */
module CacheOrder {
  import opened Fts
  import opened CacheLoad
  import opened CacheFacts

  /** What the comparator looks at. */
  datatype Rank = Rank(modified: int, level: nat, directory: bool)

  /** The comparator: newest first, then shallowest first, then "left is a directory". */
  predicate Comes(left: Rank, right: Rank) {
    if left.modified != right.modified then left.modified > right.modified
    else if left.level != right.level then left.level < right.level
    else left.directory
  }

  /** The order on (modified descending, level ascending). */
  predicate KeyLeq(left: Rank, right: Rank) {
    left.modified > right.modified || (left.modified == right.modified && left.level <= right.level)
  }

  /**
    The comparator is a strict order only away from directories: some rank
    comes both before and after `x` exactly when `x` is a directory.
   */
  lemma ComparatorStrictness(x: Rank)
    ensures (forall y :: !(Comes(x, y) && Comes(y, x))) <==> !x.directory
  {
    assert Comes(x, x) <==> x.directory;
  }

  /** In both directions the comparator decides the key order. */
  lemma ComparatorAgrees(x: Rank, y: Rank)
    ensures Comes(x, y) ==> KeyLeq(x, y)
    ensures !Comes(y, x) ==> KeyLeq(x, y)
    ensures KeyLeq(x, y) && !KeyLeq(y, x) ==> Comes(x, y) && !Comes(y, x)
  {
  }

  function RankOf(it: Item): Rank {
    Rank(it.modified, |it.path|, it.directory)
  }

  /** An entry above another is at least as recent and strictly shallower. */
  lemma {:induction false} AboveIsNewer(root: CacheTree, i: nat, j: nat)
    requires WellFormed(root) && i < |Walked(root)| && j < |Walked(root)|
    requires Walked(root)[i].path < Walked(root)[j].path
    ensures KeyLeq(RankOf(Walked(root)[i]), RankOf(Walked(root)[j]))
    ensures !KeyLeq(RankOf(Walked(root)[j]), RankOf(Walked(root)[i]))
  {
    var m := Below(root);
    var a, b := Walked(root)[i], Walked(root)[j];
    WalkDescribes(root, i);
    WalkDescribes(root, j);
    var q :| q in m && b.path <= q && m[q].attr.mtime == b.modified;
    assert a.path <= q;
  }

  ghost predicate KeySorted(r: seq<Item>) {
    forall i, j :: 0 <= i < j < |r| ==> KeyLeq(RankOf(r[i]), RankOf(r[j]))
  }

  /**
    In any order sorted on the key, whatever other walks' items are mixed in,
    an item stands before every item below it; so popping from the back takes
    the one below first.
   */
  lemma {:induction false} EvictionOrder(root: CacheTree, r: seq<Item>, i: nat, j: nat)
    requires WellFormed(root) && KeySorted(r) && i < |r| && j < |r|
    requires r[i] in Walked(root) && r[j] in Walked(root) && r[i].path < r[j].path
    ensures i < j
  {
    var i', j' :| 0 <= i' < |Walked(root)| && 0 <= j' < |Walked(root)|
                  && Walked(root)[i'] == r[i] && Walked(root)[j'] == r[j];
    AboveIsNewer(root, i', j');
  }
}

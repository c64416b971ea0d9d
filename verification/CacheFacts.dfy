/**
  What the collected items say about the directory tree they came from.
 */
module CacheFacts {
  import opened Fts
  import opened CacheLoad

  type CacheMap = map<Path, Entry<CacheAttr>>

  predicate GroupDir(m: CacheMap, q: Path) {
    q in m && m[q].kind.Dir? && m[q].attr.group
  }

  predicate TombDir(m: CacheMap, q: Path) {
    q in m && m[q].kind.Dir? && m[q].attr.tomb
  }

  /** A group directory lies strictly above `q`. */
  ghost predicate GroupAbove(m: CacheMap, q: Path) {
    exists k :: 0 <= k < |q| && GroupDir(m, q[..k])
  }

  /** A tombstone directory is `q` or lies above it. */
  ghost predicate TombUpTo(m: CacheMap, q: Path) {
    exists k :: 0 <= k <= |q| && TombDir(m, q[..k])
  }

  /** `v` is the newest time among the entries at or below `p`. */
  ghost predicate IsNewest(m: CacheMap, p: Path, v: int) {
    && (forall q :: q in m && p <= q ==> m[q].attr.mtime <= v)
    && (exists q :: q in m && p <= q && m[q].attr.mtime == v)
  }

  ghost predicate Describes(m: CacheMap, it: Item, tomb: bool) {
    && it.path in m
    && it.directory == m[it.path].kind.Dir?
    && it.group == GroupDir(m, it.path)
    && (!it.group ==> it.size == m[it.path].attr.size)
    && it.tombstone == (tomb || TombUpTo(m, it.path))
    && !GroupAbove(m, it.path)
    && IsNewest(m, it.path, it.modified)
  }

  /** The parent of item `i` is the item of the directory holding it, collected earlier. */
  ghost predicate Linked(items: seq<Item>, base: nat, i: nat, top: Path, parent: int)
    requires i < |items|
  {
    if |items[i].path| == |top| + 1 then items[i].parent == parent
    else
      && base <= items[i].parent < base + i
      && items[i].path != []
      && items[items[i].parent - base].path == Parent(items[i].path)
  }

  /** Entries added to a map outside `p` change nothing that is said about entries below `p`. */
  lemma {:induction false} DescribesIn(m: CacheMap, m': CacheMap, p: Path, it: Item, tomb: bool)
    requires Describes(m, it, tomb) && p <= it.path
    requires forall q :: p <= q ==> (q in m <==> q in m') && (q in m ==> m[q] == m'[q])
    requires forall q :: q in m' && q <= it.path ==> p <= q
    requires forall q :: q in m && q <= it.path ==> p <= q
    ensures Describes(m', it, tomb)
  {
    var q := it.path;
    forall k | 0 <= k <= |q|
      ensures GroupDir(m, q[..k]) == GroupDir(m', q[..k]) && TombDir(m, q[..k]) == TombDir(m', q[..k])
    {
      assert q[..k] <= q;
      assert p <= q[..k] || (q[..k] !in m && q[..k] !in m');
    }
    assert GroupAbove(m', q) ==> GroupAbove(m, q);
    assert TombUpTo(m', q) == TombUpTo(m, q);
    var r :| r in m && q <= r && m[r].attr.mtime == it.modified;
    assert r in m' && m'[r].attr.mtime == it.modified;
    assert q == q[..|q|];
  }

  // ----- times

  /** `v` is the newest time among `v0` and all entries. */
  ghost predicate BoundedBy(f: CacheMap, v0: int, v: int) {
    && v0 <= v
    && (forall q :: q in f ==> f[q].attr.mtime <= v)
    && (v0 == v || exists q :: q in f && f[q].attr.mtime == v)
  }

  lemma {:induction false} NewestTree(t: CacheTree, p: Path)
    requires WellFormed(t)
    ensures IsNewest(Flat(t, p), p, NewestIn(t))
    decreases t, 1
  {
    var m := Flat(t, p);
    var f := FlatForest(t.kids, p);
    NewestForest(t.kids, p, t.attr.mtime);
    assert NewestIn(t) == Newest(t.kids, t.attr.mtime);
    forall q | q in m && p <= q
      ensures m[q].attr.mtime <= NewestIn(t)
    {
      if q == p {
        assert m[q] == Entry(t.kind, t.attr);
      } else {
        assert q in f && f[q] == m[q];
      }
    }
    if NewestIn(t) == t.attr.mtime {
      assert m[p].attr.mtime == NewestIn(t);
    } else {
      var q :| q in f && f[q].attr.mtime == NewestIn(t);
      FlatForestUnder(t.kids, p, q);
      assert q in m && p <= q && m[q] == f[q];
    }
  }

  lemma {:induction false} NewestForest(ts: seq<CacheTree>, p: Path, v: int)
    requires WellFormedForest(ts)
    ensures BoundedBy(FlatForest(ts, p), v, Newest(ts, v))
    decreases ts, 0
  {
    if ts != [] {
      var p0 := p + [ts[0].name];
      var v0 := Max(v, NewestIn(ts[0]));
      var first, rest, f := Flat(ts[0], p0), FlatForest(ts[1..], p), FlatForest(ts, p);
      NewestTree(ts[0], p0);
      NewestForest(ts[1..], p, v0);
      forall q | q in f
        ensures f[q].attr.mtime <= Newest(ts, v)
      {
        FlatForestSplit(ts, p, q);
        if q in first {
          FlatUnder(ts[0], p0, q);
          assert first[q].attr.mtime <= v0;
        }
      }
      if Newest(ts, v) == v0 && v0 != v {
        var q :| q in first && first[q].attr.mtime == v0;
        FlatForestSplit(ts, p, q);
        assert q in f && f[q] == first[q];
      } else if Newest(ts, v) != v0 {
        var q :| q in rest && rest[q].attr.mtime == Newest(ts, v);
        assert q in f && f[q] == rest[q];
      }
    }
  }

  // ----- every item describes its entry

  lemma {:induction false} ItemAt(t: CacheTree, p: Path, parent: int, base: nat, tomb: bool, i: nat)
    requires WellFormed(t) && p != [] && i < |Items(t, p, parent, base, tomb)|
    ensures var items := Items(t, p, parent, base, tomb);
            p <= items[i].path && Describes(Flat(t, p), items[i], tomb) && Linked(items, base, i, Parent(p), parent)
    decreases t, 1
  {
    var own := Own(t, p, parent, tomb);
    if i == 0 {
      OwnDescribes(t, p, parent, tomb);
    } else {
      var below := ForestItems(t.kids, p, base, base + 1, own.tombstone);
      ForestItemAt(t.kids, p, base, base + 1, own.tombstone, i - 1);
      Deeper(t, p, below[i - 1], tomb);
      LinkedBelow(own, below, base, i, p, parent);
    }
  }

  lemma {:induction false} LinkedBelow(own: Item, below: seq<Item>, base: nat, i: nat, p: Path, parent: int)
    requires p != [] && own.path == p && 1 <= i <= |below| && p < below[i - 1].path
    requires Linked(below, base + 1, i - 1, p, base)
    ensures Linked([own] + below, base, i, Parent(p), parent)
  {
    var items := [own] + below;
    assert items[i] == below[i - 1];
    if |items[i].path| != |p| + 1 {
      assert items[items[i].parent - base] == below[items[i].parent - (base + 1)];
    }
  }

  lemma {:induction false} LinkedFirst(first: seq<Item>, rest: seq<Item>, base: nat, i: nat, p: Path, parent: int)
    requires i < |first| && Linked(first, base, i, p, parent)
    ensures Linked(first + rest, base, i, p, parent)
  {
    assert (first + rest)[i] == first[i];
    if |first[i].path| != |p| + 1 {
      assert (first + rest)[first[i].parent - base] == first[first[i].parent - base];
    }
  }

  lemma {:induction false} LinkedRest(first: seq<Item>, rest: seq<Item>, base: nat, i: nat, p: Path, parent: int)
    requires |first| <= i < |first| + |rest| && Linked(rest, base + |first|, i - |first|, p, parent)
    ensures Linked(first + rest, base, i, p, parent)
  {
    var it := rest[i - |first|];
    assert (first + rest)[i] == it;
    if |it.path| != |p| + 1 {
      assert (first + rest)[it.parent - base] == rest[it.parent - (base + |first|)];
    }
  }

  lemma {:induction false} OwnDescribes(t: CacheTree, p: Path, parent: int, tomb: bool)
    requires WellFormed(t)
    ensures Describes(Flat(t, p), Own(t, p, parent, tomb), tomb)
  {
    var m := Flat(t, p);
    NewestTree(t, p);
    forall k | 0 <= k < |p|
      ensures p[..k] !in m
    {
      if p[..k] in m {
        FlatUnder(t, p, p[..k]);
      }
    }
    assert p[..|p|] == p;
  }

  /** A directory's own marks join those found between it and an entry below it. */
  lemma {:induction false} Deeper(t: CacheTree, p: Path, it: Item, tomb: bool)
    requires WellFormed(t) && t.kind.Dir? && !IsGroup(t) && p < it.path
    requires Describes(FlatForest(t.kids, p), it, tomb || t.attr.tomb)
    ensures Describes(Flat(t, p), it, tomb)
  {
    var m, f, q := Flat(t, p), FlatForest(t.kids, p), it.path;
    forall k | 0 <= k <= |q|
      ensures GroupDir(m, q[..k]) == GroupDir(f, q[..k])
      ensures TombDir(m, q[..k]) == if k == |p| then t.attr.tomb else TombDir(f, q[..k])
    {
      if q[..k] in f {
        FlatForestUnder(t.kids, p, q[..k]);
      }
      assert q[..|p|] == p;
      assert q[..k] == p ==> k == |p|;
    }
    if |p| <= |q| && q[..|p|] in f {
      FlatForestUnder(t.kids, p, q[..|p|]);
    }
    assert q[..|p|] == p && !TombDir(f, q[..|p|]);
    if TombUpTo(f, q) {
      var k :| 0 <= k <= |q| && TombDir(f, q[..k]);
      assert k != |p| && TombDir(m, q[..k]);
    }
    if TombUpTo(m, q) && !t.attr.tomb {
      var k :| 0 <= k <= |q| && TombDir(m, q[..k]);
      assert TombDir(f, q[..k]);
    }
    assert t.attr.tomb ==> TombDir(m, q[..|p|]);
    forall r | r in m && q <= r
      ensures r in f && f[r] == m[r]
    {
    }
    var r :| r in f && q <= r && f[r].attr.mtime == it.modified;
    assert r in m && m[r] == f[r] && q <= r;
  }

  lemma {:induction false} ForestItemAt(ts: seq<CacheTree>, p: Path, parent: int, base: nat, tomb: bool, i: nat)
    requires WellFormedForest(ts) && i < |ForestItems(ts, p, parent, base, tomb)|
    ensures var items := ForestItems(ts, p, parent, base, tomb);
            p < items[i].path && Describes(FlatForest(ts, p), items[i], tomb) && Linked(items, base, i, p, parent)
    decreases ts, 0
  {
    var p0 := p + [ts[0].name];
    var first := Items(ts[0], p0, parent, base, tomb);
    var rest := ForestItems(ts[1..], p, parent, base + |first|, tomb);
    if i < |first| {
      ItemAt(ts[0], p0, parent, base, tomb, i);
      FirstDescribes(ts, p, first[i], tomb);
      assert Parent(p0) == p;
      LinkedFirst(first, rest, base, i, p, parent);
    } else {
      ForestItemAt(ts[1..], p, parent, base + |first|, tomb, i - |first|);
      RestDescribes(ts, p, rest[i - |first|], tomb);
      LinkedRest(first, rest, base, i, p, parent);
    }
  }

  lemma {:induction false} FirstDescribes(ts: seq<CacheTree>, p: Path, it: Item, tomb: bool)
    requires ts != [] && WellFormedForest(ts) && p + [ts[0].name] <= it.path
    requires Describes(Flat(ts[0], p + [ts[0].name]), it, tomb)
    ensures Describes(FlatForest(ts, p), it, tomb)
  {
    var p0 := p + [ts[0].name];
    var m, m' := Flat(ts[0], p0), FlatForest(ts, p);
    forall q | p0 <= q
      ensures (q in m <==> q in m') && (q in m ==> m[q] == m'[q])
    {
      FlatForestSplit(ts, p, q);
    }
    forall q | q in m' && q <= it.path
      ensures p0 <= q
    {
      FlatForestUnder(ts, p, q);
    }
    forall q | q in m && q <= it.path
      ensures p0 <= q
    {
      FlatUnder(ts[0], p0, q);
    }
    DescribesIn(m, m', p0, it, tomb);
  }

  lemma {:induction false} RestDescribes(ts: seq<CacheTree>, p: Path, it: Item, tomb: bool)
    requires ts != [] && WellFormedForest(ts) && p < it.path
    requires Describes(FlatForest(ts[1..], p), it, tomb)
    ensures Describes(FlatForest(ts, p), it, tomb)
  {
    var p1 := p + [it.path[|p|]];
    var m, m' := FlatForest(ts[1..], p), FlatForest(ts, p);
    FlatForestUnder(ts[1..], p, it.path);
    var k :| 0 <= k < |ts[1..]| && ts[1..][k].name == it.path[|p|];
    assert ts[k + 1].name == it.path[|p|] && ts[k + 1].name != ts[0].name;
    forall q | p1 <= q
      ensures (q in m <==> q in m') && (q in m ==> m[q] == m'[q])
    {
      FlatForestSplit(ts, p, q);
      assert q[|p|] == p1[|p|];
    }
    forall q | q in m' && q <= it.path
      ensures p1 <= q
    {
      FlatForestUnder(ts, p, q);
    }
    forall q | q in m && q <= it.path
      ensures p1 <= q
    {
      FlatForestUnder(ts[1..], p, q);
    }
    DescribesIn(m, m', p1, it, tomb);
  }

  // ----- one item per entry outside groups

  lemma {:induction false} ItemFor(t: CacheTree, p: Path, parent: int, base: nat, tomb: bool, q: Path)
    returns (i: nat)
    requires WellFormed(t) && q in Flat(t, p) && !GroupAbove(Flat(t, p), q)
    ensures i < |Items(t, p, parent, base, tomb)| && Items(t, p, parent, base, tomb)[i].path == q
    decreases t, 1
  {
    if q == p {
      i := 0;
    } else {
      var m, f := Flat(t, p), FlatForest(t.kids, p);
      var own := Own(t, p, parent, tomb);
      FlatForestUnder(t.kids, p, q);
      assert q[..|p|] == p && !GroupDir(m, q[..|p|]);
      assert t.kids != [];
      forall k | 0 <= k < |q|
        ensures !GroupDir(f, q[..k])
      {
        if q[..k] in f {
          FlatForestUnder(t.kids, p, q[..k]);
          assert !GroupDir(m, q[..k]);
        }
      }
      i := ForestItemFor(t.kids, p, base, base + 1, own.tombstone, q);
      i := i + 1;
    }
  }

  lemma {:induction false} ForestItemFor(ts: seq<CacheTree>, p: Path, parent: int, base: nat, tomb: bool, q: Path)
    returns (i: nat)
    requires WellFormedForest(ts) && q in FlatForest(ts, p) && !GroupAbove(FlatForest(ts, p), q)
    ensures i < |ForestItems(ts, p, parent, base, tomb)| && ForestItems(ts, p, parent, base, tomb)[i].path == q
    decreases ts, 0
  {
    var p0 := p + [ts[0].name];
    var first := Items(ts[0], p0, parent, base, tomb);
    var f := FlatForest(ts, p);
    FlatForestSplit(ts, p, q);
    if q in Flat(ts[0], p0) {
      forall k | 0 <= k < |q|
        ensures !GroupDir(Flat(ts[0], p0), q[..k])
      {
        FlatForestSplit(ts, p, q[..k]);
        assert !GroupDir(f, q[..k]);
      }
      i := ItemFor(ts[0], p0, parent, base, tomb, q);
    } else {
      forall k | 0 <= k < |q|
        ensures !GroupDir(FlatForest(ts[1..], p), q[..k])
      {
        assert !GroupDir(f, q[..k]);
      }
      i := ForestItemFor(ts[1..], p, parent, base + |first|, tomb, q);
      i := |first| + i;
    }
  }

  ghost predicate DistinctPaths(items: seq<Item>) {
    forall i, j :: 0 <= i < j < |items| ==> items[i].path != items[j].path
  }

  lemma {:induction false} ItemsDistinct(t: CacheTree, p: Path, parent: int, base: nat, tomb: bool)
    requires WellFormed(t) && p != []
    ensures DistinctPaths(Items(t, p, parent, base, tomb))
    decreases t, 1
  {
    var own := Own(t, p, parent, tomb);
    if !IsGroup(t) {
      var below := ForestItems(t.kids, p, base, base + 1, own.tombstone);
      ForestItemsDistinct(t.kids, p, base, base + 1, own.tombstone);
      forall j | 0 <= j < |below|
        ensures below[j].path != p
      {
        ForestItemAt(t.kids, p, base, base + 1, own.tombstone, j);
      }
    }
  }

  lemma {:induction false} ForestItemsDistinct(ts: seq<CacheTree>, p: Path, parent: int, base: nat, tomb: bool)
    requires WellFormedForest(ts)
    ensures DistinctPaths(ForestItems(ts, p, parent, base, tomb))
    decreases ts, 0
  {
    if ts != [] {
      var p0 := p + [ts[0].name];
      var first := Items(ts[0], p0, parent, base, tomb);
      var rest := ForestItems(ts[1..], p, parent, base + |first|, tomb);
      ItemsDistinct(ts[0], p0, parent, base, tomb);
      ForestItemsDistinct(ts[1..], p, parent, base + |first|, tomb);
      forall i, j | 0 <= i < |first| && 0 <= j < |rest|
        ensures first[i].path != rest[j].path
      {
        ItemAt(ts[0], p0, parent, base, tomb, i);
        ForestItemAt(ts[1..], p, parent, base + |first|, tomb, j);
        FlatForestSplit(ts, p, first[i].path);
      }
    }
  }

  // ----- sizes

  function SizeSum(items: seq<Item>): int {
    if items == [] then 0 else items[0].size + SizeSum(items[1..])
  }

  lemma {:induction false} SizeSumConcat(a: seq<Item>, b: seq<Item>)
    ensures SizeSum(a + b) == SizeSum(a) + SizeSum(b)
  {
    if a == [] {
      assert a + b == b;
    } else {
      assert (a + b)[1..] == a[1..] + b;
      SizeSumConcat(a[1..], b);
    }
  }

  lemma {:induction false} SizesOf(t: CacheTree, p: Path, parent: int, base: nat, tomb: bool)
    ensures SizeSum(Items(t, p, parent, base, tomb)) == TotalIn(t)
    decreases t, 1
  {
    var own := Own(t, p, parent, tomb);
    if !IsGroup(t) {
      ForestSizesOf(t.kids, p, base, base + 1, own.tombstone);
      SizeSumConcat([own], ForestItems(t.kids, p, base, base + 1, own.tombstone));
    }
  }

  lemma {:induction false} ForestSizesOf(ts: seq<CacheTree>, p: Path, parent: int, base: nat, tomb: bool)
    ensures SizeSum(ForestItems(ts, p, parent, base, tomb)) == Total(ts)
    decreases ts, 0
  {
    if ts != [] {
      var first := Items(ts[0], p + [ts[0].name], parent, base, tomb);
      SizesOf(ts[0], p + [ts[0].name], parent, base, tomb);
      ForestSizesOf(ts[1..], p, parent, base + |first|, tomb);
      SizeSumConcat(first, ForestItems(ts[1..], p, parent, base + |first|, tomb));
    }
  }

  // ----- the walk of a whole cache directory

  /** Everything below the walk's root. */
  function Below(root: CacheTree): CacheMap {
    FlatForest(root.kids, [])
  }

  function Walked(root: CacheTree): seq<Item> {
    Fold(Step, START, Events(root, [])).items
  }

  /**
    Each item the walk leaves behind describes an entry that has no group
    above it: its kind, its group and inherited tombstone marks, its own size
    unless it is a group, and the newest time of its whole subtree.  Its parent is the item of the directory
    holding it, or none directly below the root.
   */
  lemma {:induction false} WalkDescribes(root: CacheTree, i: nat)
    requires WellFormed(root) && i < |Walked(root)|
    ensures Describes(Below(root), Walked(root)[i], false)
    ensures Linked(Walked(root), 0, i, [], -1)
  {
    WalkCollects(root);
    ForestItemAt(root.kids, [], -1, 0, false, i);
  }

  /** The entry at `q` is accounted for by `it`: it is the item's own, or swallowed by the group. */
  predicate Accounts(it: Item, q: Path) {
    it.path == q || (it.group && it.path < q)
  }

  /** Every entry below the root is accounted for by exactly one item. */
  lemma {:induction false} WalkPartitions(root: CacheTree, q: Path) returns (i: nat)
    requires WellFormed(root) && q in Below(root)
    ensures i < |Walked(root)| && Accounts(Walked(root)[i], q)
    ensures forall j :: 0 <= j < |Walked(root)| && Accounts(Walked(root)[j], q) ==> j == i
  {
    hide IsNewest, TombUpTo, Linked, ForestItems;
    WalkCollects(root);
    var m := Below(root);
    var k := TopGroup(m, q);
    assert q[..|q|] == q;
    i := ForestItemFor(root.kids, [], -1, 0, false, q[..k]);
    ForestItemsDistinct(root.kids, [], -1, 0, false);
    WalkDescribes(root, i);
    forall j | 0 <= j < |Walked(root)| && Accounts(Walked(root)[j], q)
      ensures j == i
    {
      var r := Walked(root)[j].path;
      WalkDescribes(root, j);
      assert r == q[..|r|];
      assert k <= |r|;
      assert r[..k] == q[..k];
    }
  }

  /** The length of the topmost group at or above `q`, or of `q` itself when none is above. */
  lemma {:induction false} TopGroup(m: CacheMap, q: Path) returns (k: nat)
    requires q in m
    ensures k <= |q| && q[..k] in m && !GroupAbove(m, q[..k])
    ensures k < |q| ==> GroupDir(m, q[..k])
    ensures forall j :: 0 <= j < k ==> !GroupDir(m, q[..j])
  {
    k := 0;
    while k < |q| && !GroupDir(m, q[..k])
      invariant k <= |q| && forall j :: 0 <= j < k ==> !GroupDir(m, q[..j])
    {
      k := k + 1;
    }
    assert q[..|q|] == q;
    forall j | 0 <= j < k
      ensures !GroupDir(m, q[..k][..j])
    {
      assert q[..k][..j] == q[..j];
    }
  }

  /** The items' sizes add up to the sizes of all entries below the root, each counted once. */
  lemma {:induction false} WalkConservesSize(root: CacheTree)
    requires WellFormed(root)
    ensures SizeSum(Walked(root)) == Total(root.kids)
  {
    WalkCollects(root);
    ForestSizesOf(root.kids, [], -1, 0, false);
  }
}

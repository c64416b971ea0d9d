/**
  What purging does to the file system: CacheItem::purge, item by item and
  over a whole eviction.  System calls succeed, except that rmdir refuses a
  directory that is not empty.
 */
module CachePurge {
  import opened Fts
  import opened CacheLoad
  import opened CacheFacts

  /**
    A purge in progress: the files, fts_number of each directory visited, and
    whether every system call succeeded so far.
   */
  datatype Sweep = Sweep(fs: CacheMap, tags: map<Path, bool>, top: Path, tomb: bool, ok: bool)

  function Tag(s: Sweep, p: Path): bool {
    p in s.tags && s.tags[p]
  }

  function Truncated(e: Entry<CacheAttr>): Entry<CacheAttr> {
    e.(attr := e.attr.(size := 0))
  }

  function Truncate(fs: CacheMap, p: Path): CacheMap {
    if p in fs && fs[p].kind.File? then fs[p := Truncated(fs[p])] else fs
  }

  predicate HasBelow(fs: CacheMap, p: Path) {
    exists q :: q in fs && p < q
  }

  function Rmdir(fs: CacheMap, p: Path): CacheMap {
    if HasBelow(fs, p) then fs else fs - {p}
  }

  /** One turn of the purging walk below the directory item at `s.top`. */
  function SweepStep(s: Sweep, e: CacheEvent): Sweep {
    var held := if e.path == [] then false else Tag(s, Parent(e.path));
    match e.info
    case Pre => s.(tags := s.tags[e.path := if e.path == s.top then s.tomb else held || e.attr.tomb])
    case Leaf => s.(fs := if e.kind.File? && held then Truncate(s.fs, e.path) else s.fs - {e.path})
    case Post => s.(fs := Rmdir(s.fs, e.path), ok := s.ok && !HasBelow(s.fs, e.path))
  }

  /** What stays of the tree at `p` when its parent is tagged `held`. */
  function Stay(t: CacheTree, p: Path, held: bool): CacheMap
    decreases t, 1
  {
    if t.kind.Dir? then StayDir(t, p, held || t.attr.tomb)
    else if t.kind.File? && held then map[p := Truncated(Entry(t.kind, t.attr))]
    else map[]
  }

  function StayDir(t: CacheTree, p: Path, tag: bool): CacheMap
    decreases t, 0
  {
    var below := StayForest(t.kids, p, tag);
    if below == map[] then map[] else below[p := Entry(t.kind, t.attr)]
  }

  function StayForest(ts: seq<CacheTree>, p: Path, held: bool): CacheMap
    decreases ts, 0
  {
    if ts == [] then map[] else Stay(ts[0], p + [ts[0].name], held) + StayForest(ts[1..], p, held)
  }

  ghost predicate SameOutside(s: Sweep, s': Sweep, p: Path) {
    && s'.top == s.top && s'.tomb == s.tomb
    && forall q: Path :: !(p <= q) ==> Same(s.fs, s'.fs, q) && Tag(s, q) == Tag(s', q)
  }

  ghost predicate SameElsewhere(s: Sweep, s': Sweep, ts: seq<CacheTree>, p: Path) {
    && s'.top == s.top && s'.tomb == s.tomb
    && forall q: Path :: !Region(ts, p, q) ==> Same(s.fs, s'.fs, q) && Tag(s, q) == Tag(s', q)
  }

  lemma {:induction false} StayWithin(t: CacheTree, p: Path, held: bool, q: Path)
    requires q in Stay(t, p, held)
    ensures q in Flat(t, p) && p <= q
    decreases t, 1
  {
    if q != p {
      StayForestWithin(t.kids, p, held || t.attr.tomb, q);
    }
  }

  lemma {:induction false} StayForestWithin(ts: seq<CacheTree>, p: Path, held: bool, q: Path)
    requires q in StayForest(ts, p, held)
    ensures q in FlatForest(ts, p) && p < q
    decreases ts, 0
  {
    if q in StayForest(ts[1..], p, held) {
      StayForestWithin(ts[1..], p, held, q);
    } else {
      StayWithin(ts[0], p + [ts[0].name], held, q);
    }
  }

  lemma {:induction false} SweepTree(s: Sweep, t: CacheTree, p: Path)
    requires WellFormed(t) && p != [] && !(p <= s.top) && SameUnder(s.fs, Flat(t, p), p)
    ensures var s' := Fold(SweepStep, s, Events(t, p));
            && SameUnder(s'.fs, Stay(t, p, Tag(s, Parent(p))), p) && SameOutside(s, s', p)
            && (s'.ok ==> s.ok) && (Stay(t, p, Tag(s, Parent(p))) == map[] ==> s'.ok == s.ok)
    decreases t, 1
  {
    if t.kind.Dir? {
      FoldDir(SweepStep, s, t, p);
      var s1 := SweepStep(s, Event(Pre, p, t.kind, t.attr));
      SweepDir(s1, t, p);
    } else {
      FoldLeaf(SweepStep, s, t, p);
      assert t.kids == [];
      assert Flat(t, p) == map[p := Entry(t.kind, t.attr)];
      var s' := SweepStep(s, Event(Leaf, p, t.kind, t.attr));
      forall q: Path | p <= q
        ensures Same(s'.fs, Stay(t, p, Tag(s, Parent(p))), q)
      {
        assert Same(s.fs, Flat(t, p), q);
        assert Same(s.fs, Flat(t, p), p);
      }
    }
  }

  /** The walk of a directory's children and its last visit. */
  lemma {:induction false} SweepDir(s: Sweep, t: CacheTree, p: Path)
    requires WellFormed(t) && t.kind.Dir? && SameUnder(s.fs, Flat(t, p), p) && !(p < s.top)
    ensures var s' := SweepStep(Fold(SweepStep, s, ForestEvents(t.kids, p)), Event(Post, p, t.kind, t.attr));
            && SameUnder(s'.fs, StayDir(t, p, Tag(s, p)), p) && SameOutside(s, s', p)
            && s'.ok == (s.ok && StayDir(t, p, Tag(s, p)) == map[])
    decreases t, 0
  {
    var s2 := Fold(SweepStep, s, ForestEvents(t.kids, p));
    var below := StayForest(t.kids, p, Tag(s, p));
    forall q: Path | Region(t.kids, p, q)
      ensures Same(s.fs, FlatForest(t.kids, p), q)
    {
      assert Same(s.fs, Flat(t, p), q);
    }
    SweepForest(s, t.kids, p);
    forall q: Path | p < q
      ensures Same(s2.fs, below, q)
    {
      if !Region(t.kids, p, q) {
        assert Same(s.fs, Flat(t, p), q);
        if q in FlatForest(t.kids, p) {
          FlatForestUnder(t.kids, p, q);
        }
        if q in below {
          StayForestWithin(t.kids, p, Tag(s, p), q);
        }
      }
    }
    assert !Region(t.kids, p, p);
    assert Same(s.fs, s2.fs, p) && Same(s.fs, Flat(t, p), p);
    Emptied(s2.fs, below, t, p, Tag(s, p));
    var s' := s2.(fs := Rmdir(s2.fs, p));
    forall q: Path | p <= q
      ensures Same(s'.fs, StayDir(t, p, Tag(s, p)), q)
    {
      assert q != p ==> Same(s2.fs, below, q);
    }
    forall q: Path | !(p <= q)
      ensures Same(s.fs, s'.fs, q) && Tag(s, q) == Tag(s', q)
    {
      assert !Region(t.kids, p, q);
    }
  }

  lemma {:induction false} Emptied(fs: CacheMap, below: CacheMap, t: CacheTree, p: Path, tag: bool)
    requires below == StayForest(t.kids, p, tag) && forall q: Path :: p < q ==> Same(fs, below, q)
    ensures HasBelow(fs, p) <==> below != map[]
  {
    if below != map[] {
      var q :| q in below;
      StayForestWithin(t.kids, p, tag, q);
      assert Same(fs, below, q);
    }
    if HasBelow(fs, p) {
      var q :| q in fs && p < q;
      assert Same(fs, below, q);
    }
  }

  lemma {:induction false} SweepForest(s: Sweep, ts: seq<CacheTree>, p: Path)
    requires WellFormedForest(ts) && SameIn(s.fs, FlatForest(ts, p), ts, p) && !(p < s.top)
    ensures var s' := Fold(SweepStep, s, ForestEvents(ts, p));
            && SameIn(s'.fs, StayForest(ts, p, Tag(s, p)), ts, p) && SameElsewhere(s, s', ts, p)
            && (s'.ok ==> s.ok) && (StayForest(ts, p, Tag(s, p)) == map[] ==> s'.ok == s.ok)
    decreases ts, 0
  {
    hide SweepStep, Tag, SameIn, SameUnder, SameOutside, SameElsewhere;
    if ts == [] {
      ForestNone(s, p);
    } else {
      var p0 := p + [ts[0].name];
      FoldForest(SweepStep, s, ts, p);
      SameInFirst(s.fs, ts, p);
      assert Parent(p0) == p && !(p0 <= s.top);
      SweepTree(s, ts[0], p0);
      var s1 := Fold(SweepStep, s, Events(ts[0], p0));
      ForestRest(s, s1, ts, p);
      SweepForest(s1, ts[1..], p);
      ForestJoin(s, s1, Fold(SweepStep, s1, ForestEvents(ts[1..], p)), ts, p);
      UnionEmpty(Stay(ts[0], p0, Tag(s, p)), StayForest(ts[1..], p, Tag(s, p)));
    }
  }

  lemma {:induction false} UnionEmpty(a: CacheMap, b: CacheMap)
    ensures a + b == map[] ==> a == map[] && b == map[]
  {
    assert (a + b).Keys == a.Keys + b.Keys;
  }

  lemma {:induction false} ForestNone(s: Sweep, p: Path)
    ensures SameIn(s.fs, map[], [], p) && SameElsewhere(s, s, [], p)
  {
  }

  lemma {:induction false} ForestRest(s: Sweep, s1: Sweep, ts: seq<CacheTree>, p: Path)
    requires ts != [] && WellFormedForest(ts) && SameIn(s.fs, FlatForest(ts, p), ts, p)
    requires SameOutside(s, s1, p + [ts[0].name])
    ensures SameIn(s1.fs, FlatForest(ts[1..], p), ts[1..], p) && s1.top == s.top && Tag(s1, p) == Tag(s, p)
  {
    hide Tag, SameIn;
    SameInRest(s.fs, s1.fs, ts, p);
    assert !(p + [ts[0].name] <= p);
  }

  lemma {:induction false} ForestJoin(s: Sweep, s1: Sweep, s': Sweep, ts: seq<CacheTree>, p: Path)
    requires ts != [] && WellFormedForest(ts) && Tag(s1, p) == Tag(s, p)
    requires SameUnder(s1.fs, Stay(ts[0], p + [ts[0].name], Tag(s, p)), p + [ts[0].name])
    requires SameOutside(s, s1, p + [ts[0].name])
    requires SameIn(s'.fs, StayForest(ts[1..], p, Tag(s, p)), ts[1..], p) && SameElsewhere(s1, s', ts[1..], p)
    ensures SameIn(s'.fs, StayForest(ts, p, Tag(s, p)), ts, p) && SameElsewhere(s, s', ts, p)
  {
    hide Region, Tag;
    var p0, held := p + [ts[0].name], Tag(s, p);
    forall q: Path | Region(ts, p, q)
      ensures Same(s'.fs, StayForest(ts, p, held), q)
    {
      RegionSplit(ts, p, q);
      StaySplit(ts, p, held, q);
      if p0 <= q {
        assert Same(s1.fs, s'.fs, q) && Same(s1.fs, Stay(ts[0], p0, held), q);
      } else {
        assert Same(s'.fs, StayForest(ts[1..], p, held), q);
      }
    }
    forall q: Path | !Region(ts, p, q)
      ensures Same(s.fs, s'.fs, q) && Tag(s, q) == Tag(s', q)
    {
      RegionSplit(ts, p, q);
    }
  }

  lemma {:induction false} StaySplit(ts: seq<CacheTree>, p: Path, held: bool, q: Path)
    requires ts != [] && WellFormedForest(ts)
    ensures p + [ts[0].name] <= q ==> Same(StayForest(ts, p, held), Stay(ts[0], p + [ts[0].name], held), q)
    ensures !(p + [ts[0].name] <= q) ==> Same(StayForest(ts, p, held), StayForest(ts[1..], p, held), q)
  {
    if q in Stay(ts[0], p + [ts[0].name], held) {
      StayWithin(ts[0], p + [ts[0].name], held, q);
    }
    if q in StayForest(ts[1..], p, held) {
      StayForestWithin(ts[1..], p, held, q);
      FlatForestSplit(ts, p, q);
    }
  }

  // ----- what stays, said without the walk

  /** A regular file with a tombstone directory above it. */
  ghost predicate KeptFile(m: CacheMap, q: Path) {
    q in m && m[q].kind.File? && TombUpTo(m, q)
  }

  /** A directory of `f` leading to a kept file of `f`. */
  ghost predicate Leads(f: CacheMap, m: CacheMap, q: Path) {
    q in f && f[q].kind.Dir? && exists r :: r in f && q < r && KeptFile(m, r)
  }

  ghost predicate Agrees(f: CacheMap, m: CacheMap) {
    forall q :: q in f ==> q in m && m[q].kind == f[q].kind && m[q].attr.tomb == f[q].attr.tomb
  }

  /** `s` holds exactly the kept files of `f`, emptied, and the directories leading to them. */
  ghost predicate KeepsOnly(s: CacheMap, f: CacheMap, m: CacheMap, q: Path) {
    && (q in s <==> q in f && (KeptFile(m, q) || Leads(f, m, q)))
    && (q in s ==> s[q] == if KeptFile(m, q) then Truncated(f[q]) else f[q])
  }

  lemma {:induction false} TombStep(m: CacheMap, p: Path)
    requires p != []
    ensures TombUpTo(m, p) <==> TombUpTo(m, Parent(p)) || TombDir(m, p)
  {
    assert p[..|p|] == p;
    var u := Parent(p);
    if TombUpTo(m, p) && !TombDir(m, p) {
      var k :| 0 <= k <= |p| && TombDir(m, p[..k]);
      assert u[..k] == p[..k];
    }
    if TombUpTo(m, u) {
      var k :| 0 <= k <= |u| && TombDir(m, u[..k]);
      assert u[..k] == p[..k];
    }
  }

  lemma {:induction false} StayMeans(t: CacheTree, p: Path, m: CacheMap, q: Path)
    requires WellFormed(t) && p != [] && Agrees(Flat(t, p), m)
    ensures KeepsOnly(Stay(t, p, TombUpTo(m, Parent(p))), Flat(t, p), m, q)
    decreases t, 1
  {
    TombStep(m, p);
    assert p in Flat(t, p) && m[p].kind == t.kind && m[p].attr.tomb == t.attr.tomb;
    if t.kind.Dir? {
      StayDirMeans(t, p, m, q);
    } else {
      assert t.kids == [];
      assert Flat(t, p) == map[p := Entry(t.kind, t.attr)];
    }
  }

  lemma {:induction false} StayDirMeans(t: CacheTree, p: Path, m: CacheMap, q: Path)
    requires WellFormed(t) && t.kind.Dir? && Agrees(Flat(t, p), m)
    ensures KeepsOnly(StayDir(t, p, TombUpTo(m, p)), Flat(t, p), m, q)
    decreases t, 0
  {
    var f, g, s := Flat(t, p), FlatForest(t.kids, p), StayForest(t.kids, p, TombUpTo(m, p));
    assert p in f && m[p].kind == Dir;
    forall r | r in g
      ensures p < r && f[r] == g[r]
    {
      FlatForestUnder(t.kids, p, r);
    }
    assert Agrees(g, m);
    if q == p {
      if s != map[] {
        var r :| r in s;
        StayForestMeans(t.kids, p, m, r);
        assert exists r' :: r' in g && KeptFile(m, r');
      }
      forall r | r in g && KeptFile(m, r)
        ensures r in s
      {
        StayForestMeans(t.kids, p, m, r);
      }
      assert Leads(f, m, p) <==> s != map[];
    } else {
      StayForestMeans(t.kids, p, m, q);
      assert Leads(f, m, q) <==> Leads(g, m, q) by {
        if q in g {
          forall r | r in f && q < r
            ensures r in g
          {
          }
        }
      }
    }
  }

  lemma {:induction false} StayForestMeans(ts: seq<CacheTree>, p: Path, m: CacheMap, q: Path)
    requires WellFormedForest(ts) && Agrees(FlatForest(ts, p), m)
    ensures KeepsOnly(StayForest(ts, p, TombUpTo(m, p)), FlatForest(ts, p), m, q)
    decreases ts, 0
  {
    if ts != [] {
      var p0 := p + [ts[0].name];
      var f, first, rest := FlatForest(ts, p), Flat(ts[0], p0), FlatForest(ts[1..], p);
      forall r | r in first
        ensures r in f && f[r] == first[r]
      {
        FlatForestSplit(ts, p, r);
      }
      assert Agrees(first, m) && Agrees(rest, m);
      assert Parent(p0) == p;
      FlatForestSplit(ts, p, q);
      StaySplit(ts, p, TombUpTo(m, p), q);
      if p0 <= q {
        StayMeans(ts[0], p0, m, q);
        forall r | r in f && q < r
          ensures r in first
        {
          FlatForestSplit(ts, p, r);
        }
        assert Leads(f, m, q) <==> Leads(first, m, q);
      } else {
        StayForestMeans(ts[1..], p, m, q);
        forall r | r in f && q < r && q in f
          ensures r in rest
        {
          FlatForestUnder(ts, p, q);
          FlatForestSplit(ts, p, r);
        }
        assert Leads(f, m, q) <==> Leads(rest, m, q);
      }
    }
  }

  // ----- purging one item

  /** `t` is the tree a walk of `p` would find, in whatever order it lists directories. */
  ghost predicate Lists(t: CacheTree, p: Path, fs: CacheMap) {
    WellFormed(t) && t.kind.Dir? && SameUnder(fs, Flat(t, p), p)
  }

  function Swept(fs: CacheMap, it: Item, t: CacheTree): Sweep {
    Fold(SweepStep, Sweep(fs, map[], it.path, it.tombstone, true), Events(t, it.path))
  }

  /** The loop of CacheItem::purge for a directory. */
  method PurgeDirectory(fs: CacheMap, it: Item, t: CacheTree) returns (fs': CacheMap, ok: bool)
    ensures fs' == Swept(fs, it, t).fs && ok == Swept(fs, it, t).ok
  {
    var es := Events(t, it.path);
    var tags: map<Path, bool> := map[];
    fs', ok := fs, true;
    ghost var s0 := Sweep(fs, map[], it.path, it.tombstone, true);
    for i := 0 to |es|
      invariant Fold(SweepStep, s0, es[..i]) == Sweep(fs', tags, it.path, it.tombstone, ok)
    {
      var e := es[i];
      FoldNext(SweepStep, s0, es, i);
      var held := e.path != [] && Parent(e.path) in tags && tags[Parent(e.path)];
      match e.info {
        case Pre =>
          tags := tags[e.path := if e.path == it.path then it.tombstone else held || e.attr.tomb];
        case Leaf =>
          if e.kind.File? && held {
            fs' := Truncate(fs', e.path);
          } else {
            fs' := fs' - {e.path};
          }
        case Post =>
          if HasBelow(fs', e.path) {
            ok := false;
          } else {
            fs' := fs' - {e.path};
          }
      }
    }
    assert es[..|es|] == es;
  }

  /**
    Purging a directory item keeps exactly the files below it that have a
    tombstone above, emptied, and the directories leading to them; it reports
    success exactly when nothing is left.
   */
  lemma {:induction false} PurgeDirectoryKeeps(fs: CacheMap, it: Item, t: CacheTree, m: CacheMap, q: Path)
    requires Lists(t, it.path, fs) && Agrees(Flat(t, it.path), m) && it.tombstone == TombUpTo(m, it.path)
    ensures !(it.path <= q) ==> Same(fs, Swept(fs, it, t).fs, q)
    ensures it.path <= q ==> KeepsOnly(Swept(fs, it, t).fs, Flat(t, it.path), m, q)
    ensures Swept(fs, it, t).ok <==> it.path !in Swept(fs, it, t).fs
  {
    var p := it.path;
    var s := Sweep(fs, map[], p, it.tombstone, true);
    FoldDir(SweepStep, s, t, p);
    var s1 := SweepStep(s, Event(Pre, p, t.kind, t.attr));
    SweepDir(s1, t, p);
    StayDirMeans(t, p, m, q);
    assert Same(Swept(fs, it, t).fs, StayDir(t, p, it.tombstone), p);
    assert p <= q ==> Same(Swept(fs, it, t).fs, StayDir(t, p, it.tombstone), q);
  }

  /** One purge: a directory by some listing of it, anything else by one call. */
  ghost predicate PurgeItem(fs: CacheMap, it: Item, fs': CacheMap) {
    if it.directory then exists t :: Lists(t, it.path, fs) && fs' == Swept(fs, it, t).fs
    else if it.tombstone then fs' == Truncate(fs, it.path)
    else fs' == fs - {it.path}
  }

  /** CacheItem::purge; `t` is the listing a walk of a directory finds. */
  method Purge(fs: CacheMap, it: Item, t: CacheTree) returns (fs': CacheMap, ok: bool)
    requires it.directory ==> Lists(t, it.path, fs)
    ensures PurgeItem(fs, it, fs') && (it.directory ==> ok == Swept(fs, it, t).ok)
    ensures !it.directory && !it.tombstone ==> it.path !in fs'
    ensures !it.directory ==> forall q: Path :: q != it.path ==> Same(fs, fs', q)
  {
    if it.directory {
      fs', ok := PurgeDirectory(fs, it, t);
    } else if it.tombstone {
      fs', ok := Truncate(fs, it.path), true;
    } else {
      fs', ok := fs - {it.path}, true;
    }
  }

  // ----- purging everything

  /** The first purges of `order`, one after another. */
  ghost predicate PurgeRun(order: seq<Item>, fss: seq<CacheMap>) {
    && 1 <= |fss| <= |order| + 1
    && forall k :: 0 <= k < |fss| - 1 ==> PurgeItem(fss[k], order[k], fss[k + 1])
  }

  /** The walked items, each once, with everything below an item coming before it. */
  ghost predicate EvictsBelowFirst(root: CacheTree, order: seq<Item>) {
    && multiset(order) == multiset(Walked(root))
    && forall i, j :: 0 <= i < j < |order| ==> !(order[i].path < order[j].path)
  }

  /** Kept in the end: a file under a tombstone, or a directory leading to one. */
  ghost predicate Kept(m: CacheMap, q: Path) {
    KeptFile(m, q) || Leads(m, m, q)
  }

  /** The purge of `it` left nothing below it but what is kept. */
  ghost predicate Cleared(m: CacheMap, fs: CacheMap, it: Item) {
    forall q: Path :: it.path <= q ==>
      && (q in fs ==> Kept(m, q) || (q == it.path && !it.directory && it.tombstone))
      && (q in fs && KeptFile(m, q) ==> fs[q].attr.size == 0)
  }

  /** Everything above an entry is a directory, except the root, which is not in the map. */
  ghost predicate TreeLike(m: CacheMap) {
    [] !in m && forall q, k :: q in m && 1 <= k < |q| ==> q[..k] in m && m[q[..k]].kind.Dir?
  }

  /** The root is untouched, only kept files changed, and only their size; nothing kept is lost. */
  ghost predicate Intact(m: CacheMap, top: Entry<CacheAttr>, fs: CacheMap) {
    && [] in fs && fs[[]] == top
    && (forall q :: q in fs && q != [] ==>
          q in m && m[q].kind == fs[q].kind && m[q].attr == fs[q].attr.(size := m[q].attr.size)
          && (!KeptFile(m, q) ==> fs[q] == m[q]))
    && (forall q :: Kept(m, q) ==> q in fs)
  }

  lemma {:induction false} PurgeIntact(m: CacheMap, top: Entry<CacheAttr>, fs: CacheMap, it: Item, fs': CacheMap)
    requires TreeLike(m) && Intact(m, top, fs) && Describes(m, it, false) && it.path != [] && PurgeItem(fs, it, fs')
    ensures Intact(m, top, fs') && Cleared(m, fs', it)
    ensures forall q :: q in fs && !(it.path <= q) ==> q in fs'
    ensures forall q :: q in fs' ==> q in fs && (fs[q].attr.size == 0 ==> fs'[q].attr.size == 0)
  {
    if it.directory {
      var t :| Lists(t, it.path, fs) && fs' == Swept(fs, it, t).fs;
      PurgeDirIntact(m, top, fs, it, t);
    } else {
      PurgeLeafIntact(m, top, fs, it, fs');
    }
  }

  /** Purging a directory, entry by entry, in terms of the original tree. */
  ghost predicate Pruned(m: CacheMap, fs: CacheMap, it: Item, fs': CacheMap, q: Path) {
    if it.path <= q then
      && (q in fs' <==> q in fs && Kept(m, q))
      && (q in fs' ==> fs'[q] == if KeptFile(m, q) then Truncated(fs[q]) else fs[q])
    else Same(fs, fs', q)
  }

  lemma {:induction false} PurgeDirPrunes(m: CacheMap, top: Entry<CacheAttr>, fs: CacheMap, it: Item, t: CacheTree,
                                          q: Path)
    requires TreeLike(m) && Intact(m, top, fs) && Describes(m, it, false) && it.path != [] && Lists(t, it.path, fs)
    ensures Pruned(m, fs, it, Swept(fs, it, t).fs, q)
  {
    hide Swept, TombUpTo;
    var f := Flat(t, it.path);
    forall r | r in f
      ensures r in m && m[r].kind == f[r].kind && m[r].attr.tomb == f[r].attr.tomb
    {
      FlatUnder(t, it.path, r);
      assert Same(fs, f, r);
    }
    PurgeDirectoryKeeps(fs, it, t, m, q);
    if it.path <= q {
      assert Same(fs, f, q);
      if q in fs && Leads(m, m, q) {
        var r :| r in m && q < r && KeptFile(m, r);
        assert Same(fs, f, r) && Kept(m, r);
      }
      assert Leads(f, m, q) <==> q in fs && Leads(m, m, q);
    }
  }

  lemma {:induction false} PurgeDirIntact(m: CacheMap, top: Entry<CacheAttr>, fs: CacheMap, it: Item, t: CacheTree)
    requires TreeLike(m) && Intact(m, top, fs) && Describes(m, it, false) && it.path != [] && Lists(t, it.path, fs)
    ensures var fs' := Swept(fs, it, t).fs;
            && Intact(m, top, fs') && Cleared(m, fs', it)
            && (forall q :: q in fs && !(it.path <= q) ==> q in fs')
            && (forall q :: q in fs' ==> q in fs && (fs[q].attr.size == 0 ==> fs'[q].attr.size == 0))
  {
    hide Swept, KeptFile, Leads, Describes, Lists;
    var fs' := Swept(fs, it, t).fs;
    forall q: Path
      ensures Pruned(m, fs, it, fs', q)
    {
      PurgeDirPrunes(m, top, fs, it, t, q);
    }
    assert Pruned(m, fs, it, fs', []);
    forall q | q in fs'
      ensures q in fs && (fs'[q] == fs[q] || (KeptFile(m, q) && fs'[q] == Truncated(fs[q])))
    {
      assert Pruned(m, fs, it, fs', q);
    }
    forall q | Kept(m, q)
      ensures q in fs'
    {
      assert Pruned(m, fs, it, fs', q);
    }
    forall q: Path | it.path <= q
      ensures q in fs' ==> Kept(m, q)
      ensures q in fs' && KeptFile(m, q) ==> fs'[q].attr.size == 0
    {
      assert Pruned(m, fs, it, fs', q);
    }
    forall q | q in fs && !(it.path <= q)
      ensures q in fs'
    {
      assert Pruned(m, fs, it, fs', q);
    }
  }

  lemma {:induction false} NothingBelow(m: CacheMap, it: Item, q: Path)
    requires TreeLike(m) && Describes(m, it, false) && it.path != [] && !it.directory
    ensures q in m ==> !(it.path < q)
  {
    assert it.path < q ==> q[..|it.path|] == it.path;
  }

  lemma {:induction false} PurgeLeafIntact(m: CacheMap, top: Entry<CacheAttr>, fs: CacheMap, it: Item, fs': CacheMap)
    requires TreeLike(m) && Intact(m, top, fs) && Describes(m, it, false) && it.path != [] && !it.directory
    requires PurgeItem(fs, it, fs')
    ensures Intact(m, top, fs') && Cleared(m, fs', it)
    ensures forall q :: q in fs && !(it.path <= q) ==> q in fs'
    ensures forall q :: q in fs' ==> q in fs && (fs[q].attr.size == 0 ==> fs'[q].attr.size == 0)
  {
    var p := it.path;
    forall q | q in fs && p <= q
      ensures q == p
    {
      NothingBelow(m, it, q);
      assert p == q || p < q;
    }
    assert !Leads(m, m, p);
  }

  lemma {:induction false} BelowIsTreeLike(root: CacheTree)
    requires WellFormed(root)
    ensures TreeLike(Below(root))
  {
    var m := Below(root);
    forall q, k | q in m && 1 <= k < |q|
      ensures q[..k] in m && m[q[..k]].kind.Dir?
    {
      FlatForestPrefix(root.kids, [], q, k);
    }
    if [] in m {
      FlatForestUnder(root.kids, [], []);
    }
  }

  ghost predicate Underway(root: CacheTree, order: seq<Item>, fs: CacheMap, k: nat) {
    && Intact(Below(root), Entry(root.kind, root.attr), fs)
    && (forall j :: 0 <= j < k && j < |order| ==> Cleared(Below(root), fs, order[j]))
    && (forall j :: k <= j < |order| ==> order[j].path in fs)
  }

  lemma {:induction false} OrderDescribes(root: CacheTree, order: seq<Item>, j: nat)
    requires WellFormed(root) && EvictsBelowFirst(root, order) && j < |order|
    ensures Describes(Below(root), order[j], false) && order[j].path != []
  {
    assert order[j] in multiset(order);
    assert order[j] in Walked(root);
    var i :| 0 <= i < |Walked(root)| && Walked(root)[i] == order[j];
    WalkDescribes(root, i);
    BelowIsTreeLike(root);
  }

  lemma {:induction false} UnderwayStart(root: CacheTree, order: seq<Item>)
    requires WellFormed(root) && EvictsBelowFirst(root, order)
    ensures Underway(root, order, Flat(root, []), 0)
  {
    hide Describes, KeptFile, Leads;
    BelowIsTreeLike(root);
    KeptWithin(Below(root));
    forall j | 0 <= j < |order|
      ensures order[j].path in Below(root)
    {
      OrderIn(root, order, j);
    }
  }

  lemma {:induction false} UnderwayStep(root: CacheTree, order: seq<Item>, fs: CacheMap, fs': CacheMap, k: nat)
    requires WellFormed(root) && EvictsBelowFirst(root, order) && k < |order|
    requires Underway(root, order, fs, k) && PurgeItem(fs, order[k], fs')
    ensures Underway(root, order, fs', k + 1)
  {
    hide Describes, KeptFile, Leads;
    var m, it := Below(root), order[k];
    OrderDescribes(root, order, k);
    BelowIsTreeLike(root);
    PurgeIntact(m, Entry(root.kind, root.attr), fs, it, fs');
    hide PurgeItem, Intact, TreeLike, Below, EvictsBelowFirst;
    forall j | 0 <= j < k + 1
      ensures Cleared(m, fs', order[j])
    {
      assert j < k ==> Cleared(m, fs, order[j]);
    }
    forall j | k + 1 <= j < |order|
      ensures order[j].path in fs'
    {
      assert order[j].path in fs;
      OrderDistinct(root, order, k, j);
    }
  }

  lemma {:induction false} PurgeUnderway(root: CacheTree, order: seq<Item>, fss: seq<CacheMap>, k: nat)
    requires WellFormed(root) && EvictsBelowFirst(root, order) && PurgeRun(order, fss) && k < |fss|
    requires fss[0] == Flat(root, [])
    ensures Underway(root, order, fss[k], k)
    decreases k
  {
    hide Underway, EvictsBelowFirst, PurgeItem;
    if k == 0 {
      UnderwayStart(root, order);
    } else {
      PurgeUnderway(root, order, fss, k - 1);
      assert PurgeItem(fss[k - 1], order[k - 1], fss[k - 1 + 1]);
      UnderwayStep(root, order, fss[k - 1], fss[k], k - 1);
    }
  }

  lemma {:induction false} KeptWithin(m: CacheMap)
    ensures forall q :: Kept(m, q) ==> q in m
  {
  }

  lemma {:induction false} OrderIn(root: CacheTree, order: seq<Item>, j: nat)
    requires WellFormed(root) && EvictsBelowFirst(root, order) && j < |order|
    ensures order[j].path in Below(root)
  {
    OrderDescribes(root, order, j);
  }

  lemma {:induction false} OrderDistinct(root: CacheTree, order: seq<Item>, i: nat, j: nat)
    requires WellFormed(root) && EvictsBelowFirst(root, order) && i < j < |order|
    ensures order[i].path != order[j].path
  {
    var w := Walked(root);
    WalkCollects(root);
    ForestItemsDistinct(root.kids, [], -1, 0, false);
    if order[i].path == order[j].path {
      assert order[i] in multiset(order) && order[j] in multiset(order);
      var a :| 0 <= a < |w| && w[a] == order[i];
      var b :| 0 <= b < |w| && w[b] == order[j];
      assert order[i] == order[j];
      CountTwice(order, i, j);
      CountOnce(w, a);
    }
  }

  lemma {:induction false} CountTwice(s: seq<Item>, i: nat, j: nat)
    requires i < j < |s| && s[i] == s[j]
    ensures multiset(s)[s[i]] >= 2
  {
    assert s == s[..j] + s[j..];
    assert multiset(s) == multiset(s[..j]) + multiset(s[j..]);
    assert s[..j][i] == s[i] && s[j..][0] == s[i];
  }

  lemma {:induction false} CountOnce(s: seq<Item>, i: nat)
    requires i < |s| && DistinctPaths(s)
    ensures multiset(s)[s[i]] == 1
  {
    assert s == s[..i] + [s[i]] + s[i + 1..];
    assert multiset(s) == multiset(s[..i]) + multiset([s[i]]) + multiset(s[i + 1..]);
    assert s[i] !in s[..i];
    assert s[i] !in s[i + 1..];
  }

  /**
    What an eviction leaves under a root: the root itself and exactly the
    regular files with a tombstone directory above them, emptied, with the
    directories leading to them.
   */
  ghost predicate Leaves(root: CacheTree, fs: CacheMap, q: Path) {
    var m := Below(root);
    && (q in fs <==> q == [] || Kept(m, q))
    && (q in fs && q != [] ==>
          m[q].kind == fs[q].kind && fs[q].attr == if KeptFile(m, q) then m[q].attr.(size := 0) else m[q].attr)
    && (q == [] && q in fs ==> fs[q] == Entry(root.kind, root.attr))
  }

  /** Purging all items of one walk, whether or not a group swallowed an entry. */
  lemma {:induction false} OneRootLeaves(root: CacheTree, order: seq<Item>, fss: seq<CacheMap>, q: Path)
    requires WellFormed(root) && EvictsBelowFirst(root, order) && PurgeRun(order, fss) && |fss| == |order| + 1
    requires fss[0] == Flat(root, [])
    ensures Leaves(root, fss[|order|], q)
  {
    var fs, m, n := fss[|order|], Below(root), |order|;
    BelowIsTreeLike(root);
    PurgeUnderway(root, order, fss, n);
    if q in fs && q != [] {
      var i := WalkPartitions(root, q);
      var it := Walked(root)[i];
      var j := OrderIndex(root, order, it);
      assert Cleared(m, fs, order[j]);
      if !Kept(m, q) {
        LinkRemoved(root, order, fs, q, j);
      }
    }
  }

  lemma {:induction false} OrderIndex(root: CacheTree, order: seq<Item>, it: Item) returns (j: nat)
    requires EvictsBelowFirst(root, order) && it in Walked(root)
    ensures j < |order| && order[j] == it
  {
    assert it in multiset(Walked(root));
    assert it in order;
    j :| 0 <= j < |order| && order[j] == it;
  }

  /** A link under a tombstone outlives its own purge but not that of the tombstone directory. */
  lemma {:induction false} LinkRemoved(root: CacheTree, order: seq<Item>, fs: CacheMap, q: Path, j: nat)
    requires WellFormed(root) && EvictsBelowFirst(root, order) && Underway(root, order, fs, |order|) && j < |order|
    requires q in fs && q != [] && order[j].path == q && !order[j].directory && order[j].tombstone
    ensures Kept(Below(root), q)
  {
    var m := Below(root);
    OrderDescribes(root, order, j);
    var k :| 0 <= k <= |q| && TombDir(m, q[..k]);
    assert q[..|q|] == q;
    var d := q[..k];
    var i := WalkPartitions(root, d);
    WalkDescribes(root, i);
    var above := Walked(root)[i];
    assert above.path == q[..|above.path|];
    assert above.path == d;
    var j' := OrderIndex(root, order, above);
    assert Cleared(m, fs, order[j']);
  }
}

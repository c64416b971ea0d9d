/**
  Collecting the purgeable items below one cache directory
  (CacheTracker::loadItemsFrom and the CacheItem constructor).

  `Step` is the body of the walk's loop on values.  `Items` is the recursive
  meaning: one item per entry, except that a group directory is one item for
  its whole subtree, and each item is as recent as the newest entry below it.
 */
module CacheLoad {
  import opened Fts

  /** st_blocks * 512, st_mtime, and whether the two xattrs are present. */
  datatype CacheAttr = CacheAttr(size: nat, mtime: int, group: bool, tomb: bool)

  type CacheTree = Tree<CacheAttr>
  type CacheEvent = Event<CacheAttr>

  /** A CacheItem as a value; `parent` is the index of the parent item, or -1 for none. */
  datatype Item = Item(path: Path, directory: bool, group: bool, tombstone: bool,
                       size: int, modified: int, parent: int)

  function Max(a: int, b: int): int {
    if a >= b then a else b
  }

  // ----- the walk, one event at a time

  /**
    `slots` is fts_pointer: which item an entry was given.  `swallow` is the
    group item whose subtree the inner loop is reading, or -1 outside it.
    `fault` is set when the walk would use the item of an entry that has none.
   */
  datatype Walk = Walk(items: seq<Item>, slots: map<Path, int>, swallow: int, fault: bool)

  function Slot(w: Walk, p: Path): int {
    if p in w.slots then w.slots[p] else -1
  }

  predicate IsItem(items: seq<Item>, i: int) {
    0 <= i < |items|
  }

  function NewItem(w: Walk, e: CacheEvent): Item
    requires e.path != []
  {
    var pi := Slot(w, Parent(e.path));
    var own := e.info.Pre?;
    Item(e.path, e.kind.Dir?,
         (IsItem(w.items, pi) && w.items[pi].group) || (own && e.attr.group),
         (IsItem(w.items, pi) && w.items[pi].tombstone) || (own && e.attr.tomb),
         e.attr.size, e.attr.mtime, pi)
  }

  function Raise(items: seq<Item>, i: int, m: int): seq<Item> {
    if IsItem(items, i) then items[i := items[i].(modified := Max(items[i].modified, m))] else items
  }

  function Bubble(w: Walk, e: CacheEvent): Walk
    requires e.path != []
  {
    var i := Slot(w, e.path);
    if IsItem(w.items, i) then
      w.(items := Raise(w.items, Slot(w, Parent(e.path)), w.items[i].modified))
    else w.(fault := true)
  }

  function Absorb(items: seq<Item>, i: int, a: CacheAttr): seq<Item> {
    if IsItem(items, i) then
      items[i := items[i].(size := items[i].size + a.size, modified := Max(items[i].modified, a.mtime))]
    else items
  }

  function Step(w: Walk, e: CacheEvent): Walk {
    if IsItem(w.items, w.swallow) then
      if e.info.Post? then
        if e.path != [] && |e.path| == |w.items[w.swallow].path| then Bubble(w.(swallow := -1), e) else w
      else w.(items := Absorb(w.items, w.swallow, e.attr))
    else if e.path == [] then w
    else if e.info.Post? then Bubble(w, e)
    else
      var item := NewItem(w, e);
      var w' := w.(items := w.items + [item], slots := w.slots[e.path := |w.items|]);
      if e.info.Pre? then
        if item.group then w'.(swallow := |w.items|) else w'
      else Bubble(w', e)
  }

  const START := Walk([], map[], -1, false)

  // ----- the recursive meaning

  /** The newest mtime among `m` and every entry of the trees. */
  function Newest(ts: seq<CacheTree>, m: int): int
    decreases ts, 0
  {
    if ts == [] then m else Newest(ts[1..], Max(m, NewestIn(ts[0])))
  }

  function NewestIn(t: CacheTree): int
    decreases t, 1
  {
    Newest(t.kids, t.attr.mtime)
  }

  function Total(ts: seq<CacheTree>): nat
    decreases ts, 0
  {
    if ts == [] then 0 else TotalIn(ts[0]) + Total(ts[1..])
  }

  function TotalIn(t: CacheTree): nat
    decreases t, 1
  {
    t.attr.size + Total(t.kids)
  }

  predicate IsGroup(t: CacheTree) {
    t.kind.Dir? && t.attr.group
  }

  function Own(t: CacheTree, p: Path, parent: int, tomb: bool): Item {
    Item(p, t.kind.Dir?, IsGroup(t), tomb || (t.kind.Dir? && t.attr.tomb),
         if IsGroup(t) then TotalIn(t) else t.attr.size, NewestIn(t), parent)
  }

  /**
    The items of the tree at `p`, when the first of them gets index `base`.
    `tomb` says whether a directory above, below the walk's root, is a tombstone.
   */
  function Items(t: CacheTree, p: Path, parent: int, base: nat, tomb: bool): seq<Item>
    decreases t, 1
  {
    var own := Own(t, p, parent, tomb);
    if IsGroup(t) then [own] else [own] + ForestItems(t.kids, p, base, base + 1, own.tombstone)
  }

  function ForestItems(ts: seq<CacheTree>, p: Path, parent: int, base: nat, tomb: bool): seq<Item>
    decreases ts, 0
  {
    if ts == [] then []
    else
      var first := Items(ts[0], p + [ts[0].name], parent, base, tomb);
      first + ForestItems(ts[1..], p, parent, base + |first|, tomb)
  }

  /** The items below a cache directory. */
  function ItemsBelow(root: CacheTree): seq<Item> {
    ForestItems(root.kids, [], -1, 0, false)
  }

  // ----- the walk computes the recursive meaning

  function Refreshed(items: seq<Item>, i: int, ts: seq<CacheTree>): seq<Item> {
    if IsItem(items, i) then items[i := items[i].(modified := Newest(ts, items[i].modified))] else items
  }

  ghost predicate Outside(w: Walk, w': Walk, p: Path) {
    forall q: Path :: !(p <= q) ==> Slot(w', q) == Slot(w, q)
  }

  ghost predicate NotBelow(w: Walk, w': Walk, p: Path) {
    forall q: Path :: !(p < q) ==> Slot(w', q) == Slot(w, q)
  }

  ghost predicate Ready(w: Walk, pi: int) {
    w.swallow == -1 && pi < |w.items| && (pi >= 0 ==> !w.items[pi].group)
  }

  function TombAt(items: seq<Item>, pi: int): bool {
    IsItem(items, pi) && items[pi].tombstone
  }

  /** The group item after absorbing entries of total size `n`, the newest time being `m`. */
  function Grown(w: Walk, n: nat, m: int): Walk
    requires IsItem(w.items, w.swallow)
  {
    var it := w.items[w.swallow];
    w.(items := w.items[w.swallow := it.(size := it.size + n, modified := m)])
  }

  /** While a group is read, its subtree only adds to the group item. */
  lemma {:induction false} SwallowTree(w: Walk, t: CacheTree, p: Path)
    requires WellFormed(t)
    requires IsItem(w.items, w.swallow) && |p| > |w.items[w.swallow].path|
    ensures Fold(Step, w, Events(t, p)) ==
            Grown(w, TotalIn(t), Max(w.items[w.swallow].modified, NewestIn(t)))
    decreases t, 1
  {
    hide Step;
    var m := w.items[w.swallow].modified;
    SwallowStep(w, p, t.kind, t.attr);
    if t.kind.Dir? {
      FoldDir(Step, w, t, p);
      var w1 := Grown(w, t.attr.size, Max(m, t.attr.mtime));
      SwallowForest(w1, t.kids, p);
      NewestMax(t.kids, t.attr.mtime, m);
      GrownTwice(w, t.attr.size, Max(m, t.attr.mtime), Total(t.kids), Max(m, NewestIn(t)));
      SwallowStep(Grown(w, TotalIn(t), Max(m, NewestIn(t))), p, t.kind, t.attr);
    } else {
      FoldLeaf(Step, w, t, p);
      assert t.kids == [];
    }
  }

  lemma {:induction false} SwallowStep(w: Walk, p: Path, kind: Kind, a: CacheAttr)
    requires IsItem(w.items, w.swallow) && |p| > |w.items[w.swallow].path|
    ensures Step(w, Event(Post, p, kind, a)) == w
    ensures forall info :: info != Post ==>
              Step(w, Event(info, p, kind, a)) == Grown(w, a.size, Max(w.items[w.swallow].modified, a.mtime))
  {
  }

  lemma {:induction false} SwallowForest(w: Walk, ts: seq<CacheTree>, p: Path)
    requires WellFormedForest(ts)
    requires IsItem(w.items, w.swallow) && |p| >= |w.items[w.swallow].path|
    ensures Fold(Step, w, ForestEvents(ts, p)) ==
            Grown(w, Total(ts), Newest(ts, w.items[w.swallow].modified))
    decreases ts, 0
  {
    hide Step;
    var m := w.items[w.swallow].modified;
    if ts == [] {
      assert Grown(w, 0, m) == w;
    } else {
      var m1 := Max(m, NewestIn(ts[0]));
      FoldForest(Step, w, ts, p);
      SwallowTree(w, ts[0], p + [ts[0].name]);
      SwallowForest(Grown(w, TotalIn(ts[0]), m1), ts[1..], p);
      GrownTwice(w, TotalIn(ts[0]), m1, Total(ts[1..]), Newest(ts, m));
    }
  }

  lemma GrownTwice(w: Walk, n: nat, m: int, n': nat, m': int)
    requires IsItem(w.items, w.swallow)
    ensures Grown(Grown(w, n, m), n', m') == Grown(w, n + n', m')
  {
    assert Grown(Grown(w, n, m), n', m').items == Grown(w, n + n', m').items;
  }

  lemma {:induction false} NewestMax(ts: seq<CacheTree>, m: int, n: int)
    ensures Newest(ts, Max(n, m)) == Max(n, Newest(ts, m))
    decreases |ts|
  {
    if ts != [] {
      NewestMax(ts[1..], Max(m, NewestIn(ts[0])), n);
    }
  }

  function Opened(w: Walk, t: CacheTree, p: Path, pi: int): Walk {
    var made := Own(t, p, pi, TombAt(w.items, pi)).(size := t.attr.size, modified := t.attr.mtime);
    Walk(w.items + [made], w.slots[p := |w.items|], if IsGroup(t) then |w.items| else -1, w.fault)
  }

  /** The first visit of a directory gives it an item, and starts the inner loop for a group. */
  lemma {:induction false} Opening(w: Walk, t: CacheTree, p: Path, pi: int)
    requires t.kind.Dir? && p != [] && pi == Slot(w, Parent(p)) && Ready(w, pi)
    ensures Step(w, Event(Pre, p, t.kind, t.attr)) == Opened(w, t, p, pi)
    ensures Outside(w, Opened(w, t, p, pi), p)
  {
    assert !IsItem(w.items, w.swallow);
  }

  lemma {:induction false} WalkGroup(w: Walk, t: CacheTree, p: Path, pi: int)
    requires WellFormed(t) && IsGroup(t) && p != [] && pi == Slot(w, Parent(p)) && Ready(w, pi)
    ensures var w1 := Opened(w, t, p, pi);
            Fold(Step, w1, ForestEvents(t.kids, p)) ==
            w1.(items := w.items + Items(t, p, pi, |w.items|, TombAt(w.items, pi)))
  {
    var w1 := Opened(w, t, p, pi);
    SwallowForest(w1, t.kids, p);
    assert Grown(w1, Total(t.kids), NewestIn(t)).items == w.items + [Own(t, p, pi, TombAt(w.items, pi))];
  }

  lemma {:induction false} WalkTree(w: Walk, t: CacheTree, p: Path, pi: int)
    requires WellFormed(t) && p != [] && pi == Slot(w, Parent(p)) && Ready(w, pi)
    ensures var w' := Fold(Step, w, Events(t, p));
            && w'.swallow == -1 && w'.fault == w.fault
            && w'.items == Refreshed(w.items, pi, [t]) + Items(t, p, pi, |w.items|, TombAt(w.items, pi))
            && Outside(w, w', p)
    decreases t, 1
  {
    if !t.kind.Dir? {
      WalkLeaf(w, t, p, pi);
      return;
    }
    FoldDir(Step, w, t, p);
    Opening(w, t, p, pi);
    var n := |w.items|;
    var w1 := Opened(w, t, p, pi);
    var w2 := Fold(Step, w1, ForestEvents(t.kids, p));
    if IsGroup(t) {
      WalkGroup(w, t, p, pi);
    } else {
      WalkForest(w1, t.kids, p, n);
      Nested(w, t, p, pi);
    }
    Closing(w, w2.(swallow := -1), t, p, pi, n);
    Closed(w2, t, p, n);
  }

  lemma {:induction false} Closed(w2: Walk, t: CacheTree, p: Path, n: nat)
    requires p != [] && n < |w2.items| && w2.items[n].path == p && (w2.swallow == -1 || w2.swallow == n)
    ensures Step(w2, Event(Post, p, t.kind, t.attr)) == Bubble(w2.(swallow := -1), Event(Post, p, t.kind, t.attr))
  {
  }

  lemma {:induction false} Nested(w: Walk, t: CacheTree, p: Path, pi: int)
    requires !IsGroup(t)
    ensures var n := |w.items|;
            var w1 := Opened(w, t, p, pi);
            Refreshed(w1.items, n, t.kids) + ForestItems(t.kids, p, n, |w1.items|, TombAt(w1.items, n))
            == w.items + Items(t, p, pi, n, TombAt(w.items, pi))
  {
    var own := Own(t, p, pi, TombAt(w.items, pi));
    assert Refreshed(Opened(w, t, p, pi).items, |w.items|, t.kids) == w.items + [own];
  }

  lemma {:induction false} WalkLeaf(w: Walk, t: CacheTree, p: Path, pi: int)
    requires WellFormed(t) && !t.kind.Dir? && p != [] && pi == Slot(w, Parent(p)) && Ready(w, pi)
    ensures var w' := Fold(Step, w, Events(t, p));
            && w'.swallow == -1 && w'.fault == w.fault
            && w'.items == Refreshed(w.items, pi, [t]) + Items(t, p, pi, |w.items|, TombAt(w.items, pi))
            && Outside(w, w', p)
  {
    FoldLeaf(Step, w, t, p);
    var own := Own(t, p, pi, TombAt(w.items, pi));
    var e := Event(Leaf, p, t.kind, t.attr);
    var w2 := w.(items := w.items + [own], slots := w.slots[p := |w.items|]);
    assert t.kids == [] && NewestIn(t) == t.attr.mtime;
    assert NewItem(w, e) == own;
    assert Step(w, e) == Bubble(w2, e);
    assert Items(t, p, pi, |w.items|, TombAt(w.items, pi)) == [own];
    Closing(w, w2, t, p, pi, |w.items|);
  }

  /** The last visit of an entry raises its parent to the entry's own time. */
  lemma {:induction false} Closing(w: Walk, w2: Walk, t: CacheTree, p: Path, pi: int, n: nat)
    requires p != [] && pi == Slot(w, Parent(p)) && Ready(w, pi) && n == |w.items|
    requires w2.items == w.items + Items(t, p, pi, n, TombAt(w.items, pi))
    requires Slot(w2, p) == n && Outside(w, w2, p)
    ensures forall kind, attr, info :: Bubble(w2, Event(info, p, kind, attr)) ==
              w2.(items := Refreshed(w.items, pi, [t]) + Items(t, p, pi, n, TombAt(w.items, pi)))
  {
    var items := Items(t, p, pi, n, TombAt(w.items, pi));
    assert w2.items[n] == items[0] && items[0].modified == NewestIn(t);
    assert !(p <= Parent(p));
    assert Slot(w2, Parent(p)) == pi;
    if IsItem(w.items, pi) {
      assert Newest([t], w.items[pi].modified) == Max(w.items[pi].modified, NewestIn(t));
    }
    assert Raise(w2.items, pi, NewestIn(t)) == Refreshed(w.items, pi, [t]) + items;
  }

  lemma {:induction false} WalkForest(w: Walk, ts: seq<CacheTree>, p: Path, pi: int)
    requires WellFormedForest(ts) && pi == Slot(w, p) && Ready(w, pi)
    ensures var w' := Fold(Step, w, ForestEvents(ts, p));
            && w'.swallow == -1 && w'.fault == w.fault
            && w'.items == Refreshed(w.items, pi, ts) + ForestItems(ts, p, pi, |w.items|, TombAt(w.items, pi))
            && NotBelow(w, w', p)
    decreases ts, 0
  {
    if ts == [] {
      assert Refreshed(w.items, pi, ts) == w.items;
    } else {
      var q := p + [ts[0].name];
      FoldForest(Step, w, ts, p);
      assert Parent(q) == p;
      WalkTree(w, ts[0], q, pi);
      var w1 := Fold(Step, w, Events(ts[0], q));
      assert !(q <= p);
      WalkForest(w1, ts[1..], p, pi);
      Appending(w, w1, ts, p, pi);
    }
  }

  /** A first child's items followed by its siblings' items are the items of all of them. */
  lemma {:induction false} Appending(w: Walk, w1: Walk, ts: seq<CacheTree>, p: Path, pi: int)
    requires ts != [] && Ready(w, pi)
    requires w1.items == Refreshed(w.items, pi, [ts[0]])
                         + Items(ts[0], p + [ts[0].name], pi, |w.items|, TombAt(w.items, pi))
    ensures Refreshed(w1.items, pi, ts[1..]) + ForestItems(ts[1..], p, pi, |w1.items|, TombAt(w1.items, pi))
         == Refreshed(w.items, pi, ts) + ForestItems(ts, p, pi, |w.items|, TombAt(w.items, pi))
    ensures Ready(w, pi) && pi >= 0 ==> w1.items[pi].group == w.items[pi].group
  {
    var first := Items(ts[0], p + [ts[0].name], pi, |w.items|, TombAt(w.items, pi));
    assert TombAt(w1.items, pi) == TombAt(w.items, pi);
    if IsItem(w.items, pi) {
      var m := w.items[pi].modified;
      assert Newest([ts[0]], m) == Max(m, NewestIn(ts[0]));
      assert Newest(ts, m) == Newest(ts[1..], Max(m, NewestIn(ts[0])));
    }
    assert Refreshed(w1.items, pi, ts[1..]) == Refreshed(w.items, pi, ts) + first;
  }

  /** The one-pass walk of a cache directory collects exactly the items below it. */
  lemma {:induction false} WalkCollects(root: CacheTree)
    requires WellFormed(root)
    ensures Fold(Step, START, Events(root, [])).items == ItemsBelow(root)
    ensures Fold(Step, START, Events(root, [])).swallow == -1
    ensures !Fold(Step, START, Events(root, [])).fault
  {
    if root.kind.Dir? {
      FoldDir(Step, START, root, []);
      WalkForest(START, root.kids, [], -1);
    } else {
      FoldLeaf(Step, START, root, []);
    }
  }

  /** No event of the walk uses a missing item, and the inner loop never runs past the end. */
  lemma {:induction false} WalkNeverFaults(root: CacheTree, i: nat)
    requires WellFormed(root) && i <= |Events(root, [])|
    ensures !Fold(Step, START, Events(root, [])[..i]).fault
    ensures i == |Events(root, [])| ==> Fold(Step, START, Events(root, [])[..i]).swallow == -1
  {
    var es := Events(root, []);
    WalkCollects(root);
    assert es == es[..i] + es[i..];
    FoldConcat(Step, START, es[..i], es[i..]);
    FaultStays(Fold(Step, START, es[..i]), es[i..]);
  }

  lemma {:induction false} FaultStays(w: Walk, es: seq<CacheEvent>)
    ensures w.fault ==> Fold(Step, w, es).fault
  {
    if es != [] {
      FaultStays(w, es[..|es| - 1]);
    }
  }
}

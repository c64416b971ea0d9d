/**
  CacheItem and CacheTracker as the objects they are: items with raw parent
  pointers, and a tracker that loads, sorts and gives up its items.
 */
module CacheItems {
  import opened Fts
  import opened CacheLoad
  import opened CacheFacts
  import opened CacheOrder
  import opened CacheMix

  function Joined(p: Path): string {
    if p == [] then "" else Joined(Parent(p)) + "/" + p[|p| - 1]
  }

  /** fts_path of the entry at `p` in a walk of `root`. */
  function FtsPath(root: string, p: Path): string {
    root + Joined(p)
  }

  class CacheItem {
    const level: nat
    const directory: bool
    const parent: CacheItem?
    const name: string
    var group: bool
    var tombstone: bool
    var size: int
    var modified: int

    constructor (root: string, e: CacheEvent, holder: CacheItem?)
      requires e.path != []
      ensures level == |e.path| && directory == e.kind.Dir?
      ensures size == e.attr.size && modified == e.attr.mtime
      ensures parent == holder
      ensures holder != null ==> group == holder.group && tombstone == holder.tombstone
      ensures holder != null ==> name == "/" + e.path[|e.path| - 1]
      ensures holder == null ==> !group && !tombstone && name == FtsPath(root, e.path)
    {
      level := |e.path|;
      directory := e.kind.Dir?;
      size := e.attr.size;
      modified := e.attr.mtime;
      parent := holder;
      if holder != null {
        group := holder.group;
        tombstone := holder.tombstone;
        name := "/" + e.path[|e.path| - 1];
      } else {
        group := false;
        tombstone := false;
        name := FtsPath(root, e.path);
      }
    }
  }

  // ----- objects that stand for items

  function ObjAt(objs: seq<CacheItem>, i: int): CacheItem? {
    if 0 <= i < |objs| then objs[i] else null
  }

  ghost predicate Like(root: string, objs: seq<CacheItem>, o: CacheItem, it: Item)
    reads o
  {
    && it.path != []
    && o.level == |it.path|
    && o.directory == it.directory && o.group == it.group && o.tombstone == it.tombstone
    && o.size == it.size && o.modified == it.modified
    && it.parent < |objs|
    && o.parent == ObjAt(objs, it.parent)
    && o.name == if it.parent < 0 then FtsPath(root, it.path) else "/" + it.path[|it.path| - 1]
  }

  ghost predicate Distinct(objs: seq<CacheItem>) {
    forall i, j :: 0 <= i < j < |objs| ==> objs[i] != objs[j]
  }

  ghost predicate Stands(root: string, objs: seq<CacheItem>, items: seq<Item>)
    reads objs
  {
    && |objs| == |items|
    && Distinct(objs)
    && forall i {:trigger items[i]} :: 0 <= i < |objs| ==> Like(root, objs, objs[i], items[i])
  }

  /** fts_pointer holds the object of the item the entry was given. */
  ghost predicate Points(ptr: map<Path, CacheItem>, objs: seq<CacheItem>, slots: map<Path, int>) {
    && ptr.Keys == slots.Keys
    && forall p :: p in ptr ==> 0 <= slots[p] < |objs| && ptr[p] == objs[slots[p]]
  }

  lemma {:induction false} StandsAt(root: string, objs: seq<CacheItem>, items: seq<Item>, k: int)
    requires Stands(root, objs, items) && 0 <= k < |items|
    ensures |objs| == |items| && Like(root, objs, objs[k], items[k])
  {
  }

  lemma {:induction false} ModifiedAt(root: string, objs: seq<CacheItem>, items: seq<Item>, k: int)
    requires Stands(root, objs, items) && 0 <= k < |items|
    ensures |objs| == |items| && objs[k].modified == items[k].modified
  {
    StandsAt(root, objs, items, k);
  }

  lemma {:induction false} LevelAt(root: string, objs: seq<CacheItem>, items: seq<Item>, k: int)
    requires Stands(root, objs, items) && 0 <= k < |items|
    ensures |objs| == |items| && objs[k].level == |items[k].path| > 0
  {
    StandsAt(root, objs, items, k);
  }

  lemma {:induction false} StandsMore(root: string, objs: seq<CacheItem>, items: seq<Item>, o: CacheItem, it: Item)
    requires Stands(root, objs, items) && o !in objs && Like(root, objs + [o], o, it)
    ensures Stands(root, objs + [o], items + [it])
  {
    var all := items + [it];
    forall i | 0 <= i < |all|
      ensures Like(root, objs + [o], (objs + [o])[i], all[i])
    {
      if i < |items| {
        LikeLonger(root, objs, o, objs[i], items[i]);
      }
    }
  }

  lemma {:induction false} LikeLonger(root: string, objs: seq<CacheItem>, last: CacheItem, o: CacheItem, it: Item)
    requires Like(root, objs, o, it)
    ensures Like(root, objs + [last], o, it)
  {
  }

  /** item->size += size and item->modified = max(item->modified, time). */
  method Gain(root: string, objs: seq<CacheItem>, o: CacheItem, ghost k: nat, size: nat, time: int,
              ghost items: seq<Item>)
    requires Stands(root, objs, items) && k < |objs| && objs[k] == o
    modifies o
    ensures Stands(root, objs, items[k := items[k].(size := items[k].size + size,
                                                    modified := Max(items[k].modified, time))])
  {
    o.size := o.size + size;
    o.modified := Max(o.modified, time);
  }

  /** Bubbles the modified time of the entry's item up to its parent's item. */
  method BubbleUp(root: string, objs: seq<CacheItem>, ptr: map<Path, CacheItem>, e: CacheEvent, ghost w: Walk)
    requires e.path != [] && Stands(root, objs, w.items) && Points(ptr, objs, w.slots)
    requires !w.fault && !Bubble(w, e).fault
    modifies objs
    ensures Stands(root, objs, Bubble(w, e).items)
  {
    hide Stands, Like;
    ghost var i, k := Slot(w, e.path), Slot(w, Parent(e.path));
    assert IsItem(w.items, i);
    ModifiedAt(root, objs, w.items, i);
    var item := ptr[e.path];
    if Parent(e.path) in ptr {
      Gain(root, objs, ptr[Parent(e.path)], k, 0, item.modified, w.items);
    }
  }

  /** Creates the tracking item of an entry, with its marks when the entry is a directory. */
  method Track(root: string, objs: seq<CacheItem>, ptr: map<Path, CacheItem>, e: CacheEvent, ghost w: Walk)
    returns (item: CacheItem)
    requires e.path != [] && !e.info.Post? && Stands(root, objs, w.items) && Points(ptr, objs, w.slots)
    ensures fresh(item) && Stands(root, objs + [item], w.items + [NewItem(w, e)])
    ensures item.level == |e.path| && item.group == NewItem(w, e).group
  {
    hide Stands;
    ghost var k := Slot(w, Parent(e.path));
    var holder: CacheItem? := null;
    if Parent(e.path) in ptr {
      holder := ptr[Parent(e.path)];
    }
    StandsShape(root, objs, w.items);
    if IsItem(w.items, k) {
      StandsAt(root, objs, w.items, k);
    }
    item := new CacheItem(root, e, holder);
    if e.info.Pre? {
      item.group := item.group || e.attr.group;
      item.tombstone := item.tombstone || e.attr.tomb;
    }
    StandsMore(root, objs, w.items, item, NewItem(w, e));
  }

  lemma {:induction false} StandsShape(root: string, objs: seq<CacheItem>, items: seq<Item>)
    requires Stands(root, objs, items)
    ensures |objs| == |items|
  {
  }

  /** The walk after its first `i` events. */
  ghost function After(t: CacheTree, i: nat): Walk
    requires i <= |Events(t, [])|
  {
    Fold(Step, START, Events(t, [])[..i])
  }

  lemma {:induction false} NextWalk(t: CacheTree, i: nat)
    requires WellFormed(t) && i < |Events(t, [])|
    ensures After(t, i + 1) == Step(After(t, i), Events(t, [])[i]) && !After(t, i + 1).fault && !After(t, i).fault
  {
    FoldNext(Step, START, Events(t, []), i);
    WalkNeverFaults(t, i + 1);
    WalkNeverFaults(t, i);
  }

  lemma {:induction false} NextSwallowed(t: CacheTree, i: nat)
    requires WellFormed(t) && i <= |Events(t, [])|
    requires var w := After(t, i); IsItem(w.items, w.swallow) && w.items[w.swallow].path != []
    ensures i < |Events(t, [])| && !After(t, i).fault && !After(t, i + 1).fault
    ensures var w, e := After(t, i), Events(t, [])[i];
            var it := w.items[w.swallow];
            if e.info.Post? then
              if |e.path| == |it.path| then
                e.path != [] && After(t, i + 1) == Bubble(w.(swallow := -1), e)
              else After(t, i + 1) == w
            else After(t, i + 1) == w.(items := w.items[w.swallow :=
              it.(size := it.size + e.attr.size, modified := Max(it.modified, e.attr.mtime))])
  {
    hide Bubble;
    WalkNeverFaults(t, i);
    NextWalk(t, i);
  }

  /**
    Reads everything up to the last visit of the group directory of `item` and
    adds it to the item.  Returns that last visit.
   */
  method Swallow(root: string, t: CacheTree, objs: seq<CacheItem>, item: CacheItem, start: nat)
    returns (e: CacheEvent, i: nat)
    requires WellFormed(t) && start <= |Events(t, [])|
    requires var w := After(t, start);
             Stands(root, objs, w.items) && IsItem(w.items, w.swallow) && objs[w.swallow] == item
    modifies item
    ensures start < i <= |Events(t, [])|
    ensures e.info.Post? && e.path != [] && After(t, i - 1).slots == After(t, start).slots
    ensures Stands(root, objs, After(t, i - 1).items)
    ensures After(t, i) == Bubble(After(t, i - 1).(swallow := -1), e) && !After(t, i).fault && !After(t, i - 1).fault
  {
    hide Step, Bubble, After, Stands, Like;
    var es := Events(t, []);
    i := start;
    ghost var k, items := After(t, start).swallow, After(t, start).items;
    while true
      invariant start <= i <= |es|
      invariant After(t, i).swallow == k && IsItem(items, k) && After(t, i).items == items
      invariant After(t, i).slots == After(t, start).slots
      invariant Stands(root, objs, items)
      decreases |es| - i
    {
      LevelAt(root, objs, items, k);
      NextSwallowed(t, i);
      e := es[i];
      i := i + 1;
      if e.info.Post? && |e.path| == item.level {
        break;
      }
      if !e.info.Post? {
        Gain(root, objs, item, k, e.attr.size, e.attr.mtime, items);
        items := items[k := items[k].(size := items[k].size + e.attr.size,
                                      modified := Max(items[k].modified, e.attr.mtime))];
      }
    }
  }

  lemma {:induction false} NextTracked(t: CacheTree, i: nat)
    requires WellFormed(t) && i < |Events(t, [])| && After(t, i).swallow == -1
    ensures !After(t, i).fault && !After(t, i + 1).fault
    ensures var w, e := After(t, i), Events(t, [])[i];
            if e.path == [] then After(t, i + 1) == w
            else if e.info.Post? then After(t, i + 1) == Bubble(w, e)
            else
              var w' := w.(items := w.items + [NewItem(w, e)], slots := w.slots[e.path := |w.items|]);
              After(t, i + 1) ==
              if e.info.Leaf? then Bubble(w', e)
              else if NewItem(w, e).group then w'.(swallow := |w.items|) else w'
  {
    hide Bubble, NewItem;
    NextWalk(t, i);
  }

  /** Walks one cache directory and returns the objects of the items below it. */
  method LoadItemsFrom(root: string, t: CacheTree) returns (objs: seq<CacheItem>)
    requires WellFormed(t)
    ensures fresh(objs) && Stands(root, objs, Walked(t))
  {
    hide Step, Bubble, NewItem;
    var es := Events(t, []);
    var ptr: map<Path, CacheItem> := map[];
    objs := [];
    var i := 0;
    while i < |es|
      invariant 0 <= i <= |es| && After(t, i).swallow == -1
      invariant fresh(objs) && Stands(root, objs, After(t, i).items) && Points(ptr, objs, After(t, i).slots)
    {
      var e := es[i];
      ghost var w := After(t, i);
      NextTracked(t, i);
      i := i + 1;
      if e.path == [] {
        continue;
      }
      if !e.info.Post? {
        var item := Track(root, objs, ptr, e, w);
        w := w.(items := w.items + [NewItem(w, e)], slots := w.slots[e.path := |w.items|]);
        objs, ptr := objs + [item], ptr[e.path := item];
        if e.info.Pre? && item.group {
          e, i := Swallow(root, t, objs, item, i);
          w := After(t, i - 1).(swallow := -1);
        }
      }
      if !e.info.Pre? {
        BubbleUp(root, objs, ptr, e, w);
        BubbleKeeps(w, e);
      }
    }
    assert es[..i] == es;
  }

  lemma {:induction false} BubbleKeeps(w: Walk, e: CacheEvent)
    requires e.path != []
    ensures Bubble(w, e).slots == w.slots && Bubble(w, e).swallow == w.swallow
  {
  }

  // ----- parent chains

  /** Levels fall strictly along the parent pointers. */
  ghost predicate Chained(o: CacheItem)
    decreases o.level
  {
    o.parent != null ==> o.parent.level < o.level && Chained(o.parent)
  }

  /** Every item on the parent chain of `o` is in `owned`. */
  ghost predicate ChainIn(o: CacheItem, owned: set<CacheItem>)
    requires Chained(o)
    decreases o.level
  {
    o.parent != null ==> o.parent in owned && ChainIn(o.parent, owned)
  }

  function FullName(o: CacheItem): string
    requires Chained(o)
    decreases o.level
  {
    if o.parent == null then o.name else FullName(o.parent) + o.name
  }

  /** CacheItem::buildPath, which may only follow pointers to items still owned. */
  method BuildPath(o: CacheItem, ghost owned: set<CacheItem>) returns (res: string)
    requires Chained(o) && ChainIn(o, owned)
    ensures res == FullName(o)
  {
    res := o.name;
    var parent := o.parent;
    while parent != null
      invariant parent != null ==> parent in owned && Chained(parent) && ChainIn(parent, owned)
      invariant FullName(o) == if parent == null then res else FullName(parent) + res
      decreases if parent == null then 0 else parent.level + 1
    {
      assert parent.parent != null ==>
          FullName(parent.parent) + parent.name + res == FullName(parent.parent) + (parent.name + res);
      res := parent.name + res;
      parent := parent.parent;
    }
  }

  /** The path built from the parent pointers is the path the walk saw. */
  lemma {:induction false} BuildsWalkedPath(root: string, t: CacheTree, objs: seq<CacheItem>, i: nat)
    requires WellFormed(t) && Stands(root, objs, Walked(t)) && i < |objs|
    ensures Chained(objs[i]) && FullName(objs[i]) == FtsPath(root, Walked(t)[i].path)
    decreases i
  {
    hide Stands, Walked, FtsPath;
    StandsShape(root, objs, Walked(t));
    var it := Walked(t)[i];
    StandsAt(root, objs, Walked(t), i);
    WalkedParent(t, i);
    if it.parent >= 0 {
      StandsAt(root, objs, Walked(t), it.parent);
      BuildsWalkedPath(root, t, objs, it.parent);
      FtsPathLonger(root, it.path);
    }
  }

  lemma {:induction false} WalkedParent(t: CacheTree, i: nat)
    requires WellFormed(t) && i < |Walked(t)|
    ensures var it := Walked(t)[i];
            it.path != [] && (it.parent >= 0 ==> it.parent < i && Walked(t)[it.parent].path == Parent(it.path))
  {
    WalkDescribes(t, i);
  }

  lemma {:induction false} FtsPathLonger(root: string, p: Path)
    requires p != []
    ensures FtsPath(root, p) == FtsPath(root, Parent(p)) + ("/" + p[|p| - 1])
  {
  }

  // ----- sorting

  function ObjRank(o: CacheItem): Rank
    reads o
  {
    Rank(o.modified, o.level, o.directory)
  }

  ghost predicate Sorted(r: seq<CacheItem>)
    reads r
  {
    forall i, j :: 0 <= i < j < |r| ==> KeyLeq(ObjRank(r[i]), ObjRank(r[j]))
  }

  /** Puts `x` behind every item it does not come before. */
  method Insert(r: seq<CacheItem>, x: CacheItem) returns (r': seq<CacheItem>)
    requires Sorted(r)
    ensures multiset(r') == multiset(r) + multiset{x} && Sorted(r')
  {
    var j := |r|;
    while j > 0 && Comes(ObjRank(x), ObjRank(r[j - 1]))
      invariant 0 <= j <= |r|
      invariant forall k :: j <= k < |r| ==> KeyLeq(ObjRank(x), ObjRank(r[k]))
    {
      j := j - 1;
    }
    forall k | 0 <= k < j
      ensures KeyLeq(ObjRank(r[k]), ObjRank(x))
    {
      assert KeyLeq(ObjRank(r[j - 1]), ObjRank(x));
      assert k < j - 1 ==> KeyLeq(ObjRank(r[k]), ObjRank(r[j - 1]));
    }
    r' := r[..j] + [x] + r[j..];
    assert r == r[..j] + r[j..];
    InsertedSorted(r, x, j);
  }

  lemma {:induction false} InsertedSorted(r: seq<CacheItem>, x: CacheItem, j: nat)
    requires Sorted(r) && j <= |r|
    requires forall k :: 0 <= k < j ==> KeyLeq(ObjRank(r[k]), ObjRank(x))
    requires forall k :: j <= k < |r| ==> KeyLeq(ObjRank(x), ObjRank(r[k]))
    ensures Sorted(r[..j] + [x] + r[j..])
  {
    hide KeyLeq;
    var r' := r[..j] + [x] + r[j..];
    forall a, b | 0 <= a < b < |r'|
      ensures KeyLeq(ObjRank(r'[a]), ObjRank(r'[b]))
    {
      assert a < j ==> r'[a] == r[a];
      assert a > j ==> r'[a] == r[a - 1];
      assert b < j ==> r'[b] == r[b];
      assert b > j ==> r'[b] == r[b - 1];
    }
  }

  /** Insertion sort by the comparator, as a stable sort treats short ranges. */
  method InsertionSort(items: seq<CacheItem>) returns (r: seq<CacheItem>)
    ensures multiset(r) == multiset(items) && Sorted(r)
  {
    r := [];
    for i := 0 to |items|
      invariant multiset(r) == multiset(items[..i]) && Sorted(r)
    {
      assert items[..i + 1] == items[..i] + [items[i]];
      r := Insert(r, items[i]);
    }
    assert items[..|items|] == items;
  }

  /** Every item of `a` may stand before every item of `b`. */
  ghost predicate Ahead(a: seq<CacheItem>, b: seq<CacheItem>)
    reads a, b
  {
    forall i, j :: 0 <= i < |a| && 0 <= j < |b| ==> KeyLeq(ObjRank(a[i]), ObjRank(b[j]))
  }

  /** The first of a sorted run, ahead of the first of another, joins what is merged already. */
  lemma {:induction false} TakeFirst(r: seq<CacheItem>, x: seq<CacheItem>, y: seq<CacheItem>)
    requires Sorted(r) && Sorted(x) && Sorted(y) && Ahead(r, x) && Ahead(r, y)
    requires x != [] && (y != [] ==> KeyLeq(ObjRank(x[0]), ObjRank(y[0])))
    ensures Sorted(r + [x[0]]) && Sorted(x[1..]) && Ahead(r + [x[0]], x[1..]) && Ahead(r + [x[0]], y)
    ensures multiset(r + [x[0]]) + multiset(x[1..]) == multiset(r) + multiset(x)
  {
    assert x == [x[0]] + x[1..];
    forall j | 0 <= j < |y|
      ensures KeyLeq(ObjRank(x[0]), ObjRank(y[j]))
    {
      assert j > 0 ==> KeyLeq(ObjRank(y[0]), ObjRank(y[j]));
    }
  }

  lemma {:induction false} JoinRuns(r: seq<CacheItem>, x: seq<CacheItem>)
    requires Sorted(r) && Sorted(x) && Ahead(r, x)
    ensures Sorted(r + x)
  {
  }

  /** What is merged and what is left make up both runs. */
  ghost predicate SameItems(r: seq<CacheItem>, x: seq<CacheItem>, y: seq<CacheItem>,
                            a: seq<CacheItem>, b: seq<CacheItem>)
  {
    multiset(r) + multiset(x) + multiset(y) == multiset(a) + multiset(b)
  }

  lemma {:induction false} StillSame(r: seq<CacheItem>, x: seq<CacheItem>, y: seq<CacheItem>, r': seq<CacheItem>,
                                     x': seq<CacheItem>, a: seq<CacheItem>, b: seq<CacheItem>)
    requires SameItems(r, x, y, a, b) || SameItems(r, y, x, a, b)
    requires multiset(r') + multiset(x') == multiset(r) + multiset(x)
    ensures SameItems(r', x', y, a, b) && SameItems(r', y, x', a, b)
  {
    assert multiset(r') + multiset(x') + multiset(y) == multiset(a) + multiset(b);
  }

  lemma {:induction false} AllTaken(r: seq<CacheItem>, x: seq<CacheItem>, y: seq<CacheItem>,
                                    a: seq<CacheItem>, b: seq<CacheItem>)
    requires SameItems(r, x, y, a, b) && (x == [] || y == [])
    ensures multiset(r + if x == [] then y else x) == multiset(a) + multiset(b)
  {
  }

  /** The merge step of a stable sort: the second run goes first only where the comparator says so. */
  method Merge(a: seq<CacheItem>, b: seq<CacheItem>) returns (r: seq<CacheItem>)
    requires Sorted(a) && Sorted(b)
    ensures multiset(r) == multiset(a) + multiset(b) && Sorted(r)
  {
    var x, y := a, b;
    r := [];
    assert Sorted(r) && Ahead(r, x) && Ahead(r, y) && SameItems(r, x, y, a, b);
    hide Sorted, Ahead, KeyLeq, Comes, SameItems;
    while x != [] && y != []
      invariant SameItems(r, x, y, a, b)
      invariant Sorted(r) && Sorted(x) && Sorted(y) && Ahead(r, x) && Ahead(r, y)
      decreases |x| + |y|
    {
      ComparatorAgrees(ObjRank(x[0]), ObjRank(y[0]));
      ComparatorAgrees(ObjRank(y[0]), ObjRank(x[0]));
      if Comes(ObjRank(y[0]), ObjRank(x[0])) {
        TakeFirst(r, y, x);
        StillSame(r, y, x, r + [y[0]], y[1..], a, b);
        r, y := r + [y[0]], y[1..];
      } else {
        TakeFirst(r, x, y);
        StillSame(r, x, y, r + [x[0]], x[1..], a, b);
        r, x := r + [x[0]], x[1..];
      }
    }
    var rest := if x == [] then y else x;
    JoinRuns(r, rest);
    assert multiset(r + rest) == multiset(a) + multiset(b) by { AllTaken(r, x, y, a, b); }
    r := r + rest;
  }

  /** A stable sort by the comparator: halves sorted and merged. */
  method SortItems(items: seq<CacheItem>) returns (r: seq<CacheItem>)
    ensures multiset(r) == multiset(items) && Sorted(r)
    decreases |items|
  {
    if |items| <= 2 {
      r := InsertionSort(items);
    } else {
      var half := |items| / 2;
      var left := SortItems(items[..half]);
      var right := SortItems(items[half..]);
      r := Merge(left, right);
      assert items == items[..half] + items[half..];
    }
  }

  /** Every parent is present, chained, and strictly ahead of its children in the key order. */
  ghost predicate HasParents(items: seq<CacheItem>)
    reads items
  {
    forall o :: o in items ==>
      && Chained(o)
      && (o.parent != null ==>
            o.parent in items && KeyLeq(ObjRank(o.parent), ObjRank(o)) && !KeyLeq(ObjRank(o), ObjRank(o.parent)))
  }

  /** Every parent stands earlier in the vector. */
  ghost predicate ParentsFirst(items: seq<CacheItem>) {
    forall i :: 0 <= i < |items| ==>
      Chained(items[i]) && (items[i].parent != null ==> items[i].parent in items[..i])
  }

  lemma {:induction false} SortedParentsFirst(items: seq<CacheItem>, r: seq<CacheItem>)
    requires HasParents(items) && multiset(r) == multiset(items) && Sorted(r)
    ensures ParentsFirst(r)
  {
    forall i | 0 <= i < |r|
      ensures Chained(r[i]) && (r[i].parent != null ==> r[i].parent in r[..i])
    {
      assert r[i] in multiset(r);
      assert r[i] in items;
      if r[i].parent != null {
        assert r[i].parent in multiset(items);
        var k :| 0 <= k < |r| && r[k] == r[i].parent;
        assert k < i;
      }
    }
  }

  /** Popping the last item leaves every item of its parent chain in the vector. */
  lemma {:induction false} ParentsFirstFewer(items: seq<CacheItem>, n: nat)
    requires ParentsFirst(items) && n <= |items|
    ensures ParentsFirst(items[..n])
  {
    forall i | 0 <= i < n
      ensures items[..n][..i] == items[..i]
    {
    }
  }

  lemma {:induction false} ChainOwned(items: seq<CacheItem>, i: nat)
    requires ParentsFirst(items) && i < |items|
    ensures ChainIn(items[i], set k | 0 <= k < i :: items[k])
  {
    if items[i].parent != null {
      var k :| 0 <= k < i && items[..i][k] == items[i].parent;
      ChainOwned(items, k);
      ChainInMore(items[k], set j | 0 <= j < k :: items[j], set j | 0 <= j < i :: items[j]);
    }
  }

  lemma {:induction false} ChainInMore(o: CacheItem, a: set<CacheItem>, b: set<CacheItem>)
    requires Chained(o) && ChainIn(o, a) && a <= b
    ensures ChainIn(o, b)
    decreases o.level
  {
    if o.parent != null {
      ChainInMore(o.parent, a, b);
    }
  }

  lemma {:induction false} WalkHasParents(root: string, t: CacheTree, objs: seq<CacheItem>)
    requires WellFormed(t) && Stands(root, objs, Walked(t))
    ensures HasParents(objs)
  {
    forall o | o in objs
      ensures Chained(o)
      ensures o.parent != null ==>
            o.parent in objs && KeyLeq(ObjRank(o.parent), ObjRank(o)) && !KeyLeq(ObjRank(o), ObjRank(o.parent))
    {
      var i :| 0 <= i < |objs| && objs[i] == o;
      var it := Walked(t)[i];
      BuildsWalkedPath(root, t, objs, i);
      assert Like(root, objs, o, it);
      WalkDescribes(t, i);
      if it.parent >= 0 {
        assert Like(root, objs, objs[it.parent], Walked(t)[it.parent]);
        assert Parent(it.path) < it.path;
        AboveIsNewer(t, it.parent, i);
      }
    }
  }

  lemma {:induction false} ParentsConcat(a: seq<CacheItem>, b: seq<CacheItem>)
    requires HasParents(a) && HasParents(b)
    ensures HasParents(a + b)
  {
  }

  lemma {:induction false} NoParents()
    ensures HasParents([])
  {
  }

  // ----- the tracker

  function Flatten(parts: seq<seq<CacheItem>>): seq<CacheItem> {
    if parts == [] then [] else Flatten(parts[..|parts| - 1]) + parts[|parts| - 1]
  }

  /** One walk of a cache or code_cache directory: its path and the tree found there. */
  datatype Root = Root(path: string, tree: CacheTree)

  function TreesOf(roots: seq<Root>): seq<CacheTree> {
    seq(|roots|, k requires 0 <= k < |roots| => roots[k].tree)
  }

  /** fts_path of the entry an item was made for. */
  function PathOf(roots: seq<Root>, tag: Tagged): string {
    if tag.root < |roots| then FtsPath(roots[tag.root].path, tag.it.path) else ""
  }

  /** The pointers from `o` spell the path its entry was found at. */
  ghost predicate Names(roots: seq<Root>, o: CacheItem, tag: Tagged) {
    Chained(o) && FullName(o) == PathOf(roots, tag)
  }

  /** `o` is the object of the item `tag`. */
  ghost predicate Depicts(roots: seq<Root>, o: CacheItem, tag: Tagged)
    reads o
  {
    Names(roots, o, tag) && ObjRank(o) == RankOf(tag.it) && o.size == tag.it.size
  }

  lemma {:induction false} PartDepicts(roots: seq<Root>, part: seq<CacheItem>, k: nat, i: nat)
    requires k < |roots| && WellFormed(roots[k].tree)
    requires Stands(roots[k].path, part, Walked(roots[k].tree)) && i < |part|
    ensures |part| == |Walked(roots[k].tree)|
    ensures Depicts(roots, part[i], Tagged(k, Walked(roots[k].tree)[i]))
  {
    hide Stands, Walked;
    StandsShape(roots[k].path, part, Walked(roots[k].tree));
    StandsAt(roots[k].path, part, Walked(roots[k].tree), i);
    BuildsWalkedPath(roots[k].path, roots[k].tree, part, i);
  }

  /** The objects of all walks are, one by one, those of all walks' items. */
  ghost predicate AllDepicted(roots: seq<Root>, objs: seq<CacheItem>, tags: seq<Tagged>)
    reads objs
  {
    |objs| == |tags| && forall i :: 0 <= i < |objs| ==> Depicts(roots, objs[i], tags[i])
  }

  lemma {:induction false} FlattenDepicted(roots: seq<Root>, parts: seq<seq<CacheItem>>, n: nat)
    requires n <= |roots| == |parts|
    requires forall k :: 0 <= k < |roots| ==> WellFormed(roots[k].tree)
    requires forall k :: 0 <= k < |roots| ==> Stands(roots[k].path, parts[k], Walked(roots[k].tree))
    ensures AllDepicted(roots, Flatten(parts[..n]), AllTags(TreesOf(roots)[..n]))
    decreases n
  {
    hide Stands, Walked, Depicts;
    if n > 0 {
      var m := n - 1;
      FlattenDepicted(roots, parts, m);
      assert parts[..n][..m] == parts[..m] && TreesOf(roots)[..n][..m] == TreesOf(roots)[..m];
      assert TreesOf(roots)[..n][m] == roots[m].tree;
      StandsShape(roots[m].path, parts[m], Walked(roots[m].tree));
      forall i | 0 <= i < |parts[m]|
        ensures Depicts(roots, parts[m][i], TagAll(Walked(roots[m].tree), m)[i])
      {
        PartDepicts(roots, parts[m], m, i);
      }
    }
  }

  function Drop<T>(s: seq<T>, j: nat): seq<T>
    requires j < |s|
  {
    s[..j] + s[j + 1..]
  }

  lemma {:induction false} DropMultiset<T>(s: seq<T>, j: nat)
    requires j < |s|
    ensures multiset(s) == multiset(Drop(s, j)) + multiset{s[j]}
  {
    assert s == s[..j] + ([s[j]] + s[j + 1..]);
  }

  lemma {:induction false} DropDepicted(roots: seq<Root>, objs: seq<CacheItem>, tags: seq<Tagged>, j: nat)
    requires AllDepicted(roots, objs, tags) && j < |objs|
    ensures AllDepicted(roots, Drop(objs, j), Drop(tags, j)) && Depicts(roots, objs[j], tags[j])
  {
    hide Depicts;
    forall i | 0 <= i < |objs| - 1
      ensures Depicts(roots, Drop(objs, j)[i], Drop(tags, j)[i])
    {
      assert Depicts(roots, objs[if i < j then i else i + 1], tags[if i < j then i else i + 1]);
    }
  }

  /** The last of a rearrangement stands somewhere in the original; without it the rest is still one. */
  lemma {:induction false} FindLast<T>(objs: seq<T>, sorted: seq<T>) returns (j: nat)
    requires multiset(sorted) == multiset(objs) && sorted != []
    ensures j < |objs| && objs[j] == sorted[|sorted| - 1]
    ensures multiset(sorted[..|sorted| - 1]) == multiset(Drop(objs, j))
  {
    var n := |sorted| - 1;
    assert sorted == sorted[..n] + [sorted[n]];
    assert sorted[n] in multiset(sorted);
    assert sorted[n] in objs;
    j :| 0 <= j < |objs| && objs[j] == sorted[n];
    DropMultiset(objs, j);
    assert multiset(sorted[..n]) == multiset(sorted) - multiset{sorted[n]};
    assert multiset(Drop(objs, j)) == multiset(objs) - multiset{sorted[n]};
  }

  /** Rearranging the objects rearranges what they depict. */
  lemma {:induction false} Rearranged(roots: seq<Root>, objs: seq<CacheItem>, tags: seq<Tagged>, sorted: seq<CacheItem>)
    returns (s: seq<Tagged>)
    requires AllDepicted(roots, objs, tags) && multiset(sorted) == multiset(objs)
    ensures AllDepicted(roots, sorted, s) && multiset(s) == multiset(tags)
    decreases |sorted|
  {
    hide Depicts, Drop;
    if sorted == [] {
      assert |multiset(objs)| == 0;
      s := [];
    } else {
      var n := |sorted| - 1;
      var j := FindLast(objs, sorted);
      DropDepicted(roots, objs, tags, j);
      DropMultiset(tags, j);
      var before := Rearranged(roots, Drop(objs, j), Drop(tags, j), sorted[..n]);
      s := before + [tags[j]];
    }
  }

  lemma {:induction false} DepictedSorted(roots: seq<Root>, objs: seq<CacheItem>, tags: seq<Tagged>)
    requires AllDepicted(roots, objs, tags) && Sorted(objs)
    ensures MixSorted(tags)
  {
    forall i, j | 0 <= i < j < |tags|
      ensures KeyLeq(RankOf(tags[i].it), RankOf(tags[j].it))
    {
      assert Depicts(roots, objs[i], tags[i]) && Depicts(roots, objs[j], tags[j]);
    }
  }

  class CacheTracker {
    const cacheQuota: int
    const roots: seq<Root>
    var cacheUsed: int
    var itemsLoaded: bool
    var items: seq<CacheItem>
    // What was loaded; the items left are those of its first entries.
    ghost var loaded: seq<Tagged>

    constructor (quota: int, used: int, roots: seq<Root>)
      ensures cacheQuota == quota && cacheUsed == used && this.roots == roots && !itemsLoaded && items == []
    {
      cacheQuota := quota;
      cacheUsed := used;
      this.roots := roots;
      itemsLoaded := false;
      items := [];
      loaded := [];
    }

    ghost predicate Valid()
      reads this
    {
      && (forall k :: 0 <= k < |roots| ==> WellFormed(roots[k].tree))
      && (itemsLoaded ==> ParentsFirst(items) && Remembers() && MixSorted(loaded) && FromWalks(TreesOf(roots), loaded))
      && (!itemsLoaded ==> items == [])
    }

    ghost predicate Remembers()
      reads this
    {
      |items| <= |loaded| && forall n :: 0 <= n < |items| ==> Names(roots, items[n], loaded[n])
    }

    /** Walks every root in turn; `parts` gives back the objects of each walk. */
    method LoadAll() returns (loaded: seq<CacheItem>, ghost parts: seq<seq<CacheItem>>)
      requires forall k :: 0 <= k < |roots| ==> WellFormed(roots[k].tree)
      ensures |parts| == |roots| && loaded == Flatten(parts) && fresh(loaded) && HasParents(loaded)
      ensures forall k :: 0 <= k < |roots| ==> Stands(roots[k].path, parts[k], Walked(roots[k].tree))
    {
      hide Stands, Walked, HasParents;
      loaded, parts := [], [];
      assert HasParents(loaded) by { NoParents(); }
      for i := 0 to |roots|
        invariant |parts| == i && loaded == Flatten(parts)
        invariant forall k :: 0 <= k < i ==> fresh(parts[k])
        invariant forall k :: 0 <= k < i ==> Stands(roots[k].path, parts[k], Walked(roots[k].tree))
        invariant fresh(loaded) && HasParents(loaded)
      {
        var objs := LoadItemsFrom(roots[i].path, roots[i].tree);
        WalkHasParents(roots[i].path, roots[i].tree, objs);
        ParentsConcat(loaded, objs);
        loaded := loaded + objs;
        assert (parts + [objs])[..i] == parts;
        parts := parts + [objs];
      }
    }

    /** Loads the items below every root, sorted for eviction. */
    method LoadItems() returns (ghost parts: seq<seq<CacheItem>>)
      requires forall k :: 0 <= k < |roots| ==> WellFormed(roots[k].tree)
      modifies `items, `loaded
      ensures |parts| == |roots|
      ensures forall k :: 0 <= k < |roots| ==> Stands(roots[k].path, parts[k], Walked(roots[k].tree))
      ensures multiset(items) == multiset(Flatten(parts))
      ensures fresh(items) && Sorted(items) && ParentsFirst(items)
      ensures AllDepicted(roots, items, loaded) && MixSorted(loaded) && FromWalks(TreesOf(roots), loaded)
    {
      hide Stands, Walked, HasParents, Flatten, Sorted, ParentsFirst, AllDepicted, MixSorted, FromWalks, AllTags;
      var all;
      all, parts := LoadAll();
      var sorted := SortItems(all);
      SortedParentsFirst(all, sorted);
      forall k | 0 <= k < |sorted|
        ensures fresh(sorted[k])
      {
        assert sorted[k] in multiset(sorted);
        assert sorted[k] in all;
      }
      FlattenDepicted(roots, parts, |roots|);
      assert parts[..|roots|] == parts && TreesOf(roots)[..|roots|] == TreesOf(roots);
      ghost var tags := Rearranged(roots, all, AllTags(TreesOf(roots)), sorted);
      RearrangedFromWalks(TreesOf(roots), tags);
      DepictedSorted(roots, sorted, tags);
      items := sorted;
      loaded := tags;
    }

    /** Loads the items unless they are; a new load stands for the tracker's walks, sorted and complete. */
    method EnsureItems()
      requires Valid()
      modifies `items, `itemsLoaded, `loaded
      ensures Valid() && itemsLoaded
      ensures old(itemsLoaded) ==> items == old(items) && loaded == old(loaded)
      ensures !old(itemsLoaded) ==> fresh(items) && Sorted(items) && AllDepicted(roots, items, loaded)
    {
      if itemsLoaded {
        return;
      }
      var _ := LoadItems();
      itemsLoaded := true;
    }

    /** Pops the last item and rebuilds its path from pointers into what is left. */
    method Evict() returns (item: CacheItem, path: string)
      requires Valid() && items != []
      modifies `items
      ensures Valid() && itemsLoaded
      ensures item == old(items)[|old(items)| - 1] && items == old(items)[..|old(items)| - 1]
      ensures |old(items)| <= |loaded| && path == PathOf(roots, loaded[|old(items)| - 1])
    {
      hide MixSorted, FromWalks, TreesOf, PathOf, FullName, ChainIn, ParentsFirst, Chained;
      assert Names(roots, items[|items| - 1], loaded[|items| - 1]);
      item := items[|items| - 1];
      ChainOwned(items, |items| - 1);
      ParentsFirstFewer(items, |items| - 1);
      ghost var owned := set k | 0 <= k < |items| - 1 :: items[k];
      items := items[..|items| - 1];
      path := BuildPath(item, owned);
    }
  }
}

/**
  The manual measurements of a user's shared storage: the code, data and cache
  totals of collectManualExternalStatsForUser, and the per-category totals of
  getExternalSize.  Both tag entries through fts_number on the way down.
 */
module ExternalSize {
  import opened Fts

  /** The attribute is the entry's size on disk, st_blocks * 512. */
  type SizeTree = Tree<nat>
  type SizeMap = map<Path, Entry<nat>>
  type SizeEvent = Event<nat>

  /** The size of every entry of a tree, each once. */
  function TreeSize(t: SizeTree): nat
    decreases t, 1
  {
    t.attr + ForestSize(t.kids)
  }

  function ForestSize(ts: seq<SizeTree>): nat
    decreases ts, 0
  {
    if ts == [] then 0 else TreeSize(ts[0]) + ForestSize(ts[1..])
  }

  // ----- parts of a tree

  datatype Media = Audio | Video | Image | NoMedia

  /** The parts the two walks measure; `m` is the whole tree, `table` the generated extension table. */
  datatype Part =
    | Code(m: SizeMap)
    | Data(m: SizeMap)
    | Cache(m: SizeMap)
    | App
    | Obb
    | NotObb
    | Category(table: string -> Media, category: Media)

  /** A directory at Android/obb/x is on the way to, or is, the entry at `q`. */
  predicate CodeAt(m: SizeMap, q: Path) {
    |q| >= 3 && q[0] == "Android" && q[1] == "obb" && q[..3] in m && m[q[..3]].kind.Dir?
  }

  /** A directory at Android/data/x/cache is on the way to, or is, the entry at `q`. */
  predicate CacheAt(m: SizeMap, q: Path) {
    |q| >= 4 && q[0] == "Android" && q[1] == "data" && q[3] == "cache" && q[..4] in m && m[q[..4]].kind.Dir?
  }

  predicate AppBelow(q: Path) {
    |q| >= 2 && q[0] == "Android"
  }

  /** The entry at `q` is Android/obb or lies below it. */
  predicate ObbAt(q: Path) {
    |q| >= 2 && q[0] == "Android" && q[1] == "obb"
  }

  /** What follows the last dot, if there is one. */
  function Extension(name: string): (r: seq<string>)
    ensures |r| <= 1
    ensures r == [] <==> '.' !in name
    ensures |r| == 1 ==> '.' !in r[0] && |r[0]| < |name| && name == name[..|name| - |r[0]| - 1] + "." + r[0]
  {
    if name == "" then []
    else if name[|name| - 1] == '.' then [""]
    else
      var r := Extension(name[..|name| - 1]);
      if r == [] then [] else [r[0] + [name[|name| - 1]]]
  }

  function Categorize(table: string -> Media, name: string): Media {
    var ext := Extension(name);
    if |ext| == 1 then table(ext[0]) else NoMedia
  }

  /** A name has a category exactly if the table gives it to what follows the name's last dot. */
  lemma {:induction false} CategorizeMeans(table: string -> Media, name: string, c: Media)
    ensures c != NoMedia ==>
              (Categorize(table, name) == c <==>
               exists stem, ext :: name == stem + "." + ext && '.' !in ext && table(ext) == c)
    ensures '.' !in name ==> Categorize(table, name) == NoMedia
  {
    hide Extension;
    var r := Extension(name);
    if |r| == 1 {
      assert name == name[..|name| - |r[0]| - 1] + "." + r[0] && '.' !in r[0];
      forall stem: string, ext: string | name == stem + "." + ext && '.' !in ext
        ensures ext == r[0]
      {
        LastDot(name, stem, ext, name[..|name| - |r[0]| - 1], r[0]);
      }
    }
  }

  lemma {:induction false} LastDot(name: string, a: string, x: string, b: string, y: string)
    requires name == a + "." + x && '.' !in x && name == b + "." + y && '.' !in y
    ensures x == y
  {
    NoDotAfter(name, a, x);
    NoDotAfter(name, b, y);
    assert name[|a|] == '.' && name[|b|] == '.';
    assert name[|a| + 1..] == x && name[|b| + 1..] == y;
  }

  lemma {:induction false} NoDotAfter(name: string, a: string, x: string)
    requires name == a + "." + x && '.' !in x
    ensures forall k :: |a| < k < |name| ==> name[k] != '.'
  {
    forall k | |a| < k < |name|
      ensures name[k] != '.'
    {
      assert name[k] == x[k - |a| - 1];
    }
  }

  predicate In(part: Part, q: Path, t: SizeTree) {
    match part
    case Code(m) => CodeAt(m, q)
    case Data(m) => !CodeAt(m, q)
    case Cache(m) => CacheAt(m, q)
    case App => AppBelow(q)
    case Obb => ObbAt(q)
    case NotObb => !ObbAt(q)
    case Category(table, c) => q != [] && t.kind.File? && !AppBelow(q) && Categorize(table, q[|q| - 1]) == c
  }

  function Share(part: Part, q: Path, t: SizeTree): nat {
    if In(part, q, t) then t.attr else 0
  }

  /** The size of those entries of the tree at `p` that are in the part. */
  function PartSize(part: Part, t: SizeTree, p: Path): nat
    decreases t, 1
  {
    Share(part, p, t) + PartForest(part, t.kids, p)
  }

  function PartForest(part: Part, ts: seq<SizeTree>, p: Path): nat
    decreases ts, 0
  {
    if ts == [] then 0 else PartSize(part, ts[0], p + [ts[0].name]) + PartForest(part, ts[1..], p)
  }

  // ----- collectManualExternalStatsForUser

  datatype Stats = Stats(code: int, data: int, cache: int, number: map<Path, int>)

  function NumberOf(number: map<Path, int>, q: Path): int {
    if q == [] || Parent(q) !in number then 0 else number[Parent(q)]
  }

  function StatsTag(s: Stats, e: SizeEvent): int {
    if e.info.Pre? && |e.path| == 3 && e.path[1] == "obb" && e.path[0] == "Android" then 1
    else if e.info.Pre? && |e.path| == 4 && e.path[3] == "cache" && e.path[1] == "data" && e.path[0] == "Android" then 2
    else NumberOf(s.number, e.path)
  }

  function StatsStep(s: Stats, e: SizeEvent): Stats {
    var tag := StatsTag(s, e);
    var s1 := s.(number := s.number[e.path := tag]);
    if e.info.Post? then s1
    else if tag == 1 then s1.(code := s.code + e.attr)
    else s1.(data := s.data + e.attr, cache := if tag == 2 then s.cache + e.attr else s.cache)
  }

  /** The tag an entry carries. */
  function Tag(m: SizeMap, q: Path): int {
    if CodeAt(m, q) then 1 else if CacheAt(m, q) then 2 else 0
  }

  /** An entry's tag is its parent's, except where a directory starts a part. */
  lemma {:induction false} TagInherited(m: SizeMap, q: Path)
    requires q in m && q != []
    ensures Tag(m, q) ==
            if m[q].kind.Dir? && |q| == 3 && q[1] == "obb" && q[0] == "Android" then 1
            else if m[q].kind.Dir? && |q| == 4 && q[3] == "cache" && q[1] == "data" && q[0] == "Android" then 2
            else Tag(m, Parent(q))
  {
    var up := Parent(q);
    assert |q| == 3 ==> q[..3] == q;
    assert |q| == 4 ==> q[..4] == q;
    assert |q| > 3 ==> up[..3] == q[..3];
    assert |q| > 4 ==> up[..4] == q[..4];
  }

  /** The walk added exactly the parts of `ts`, and numbered nothing outside the region. */
  ghost predicate Added(s: Stats, s': Stats, code: nat, data: nat, cache: nat) {
    s'.code == s.code + code && s'.data == s.data + data && s'.cache == s.cache + cache
  }

  ghost predicate NumbersKept(n: map<Path, int>, n': map<Path, int>, p: Path) {
    forall q: Path :: !(p <= q) ==> (q in n' <==> q in n) && (q in n ==> n'[q] == n[q])
  }

  lemma {:induction false} StatsTree(m: SizeMap, s: Stats, t: SizeTree, p: Path)
    requires WellFormed(t) && Contains(m, Flat(t, p))
    requires p != [] ==> Parent(p) in s.number && s.number[Parent(p)] == Tag(m, Parent(p))
    ensures var s' := Fold(StatsStep, s, Events(t, p));
            && Added(s, s', PartSize(Code(m), t, p), PartSize(Data(m), t, p), PartSize(Cache(m), t, p))
            && NumbersKept(s.number, s'.number, p)
    decreases t, 1
  {
    hide StatsStep, Tag, Share, Flat;
    if t.kind.Dir? {
      FoldDir(StatsStep, s, t, p);
      var s1 := StatsStep(s, Event(Pre, p, t.kind, t.attr));
      StatsVisit(m, s, Pre, t, p);
      ContainsKids(m, t, p);
      StatsForest(m, s1, t.kids, p);
      StatsLastVisit(Fold(StatsStep, s1, ForestEvents(t.kids, p)), t, p);
    } else {
      FoldLeaf(StatsStep, s, t, p);
      StatsVisit(m, s, Leaf, t, p);
    }
  }

  lemma {:induction false} StatsLastVisit(s: Stats, t: SizeTree, p: Path)
    ensures var s' := StatsStep(s, Event(Post, p, t.kind, t.attr));
            Added(s, s', 0, 0, 0) && NumbersKept(s.number, s'.number, p)
  {
  }

  /** The first visit to an entry adds it to the parts it is in. */
  lemma {:induction false} StatsVisit(m: SizeMap, s: Stats, info: Info, t: SizeTree, p: Path)
    requires Contains(m, Flat(t, p)) && info == if t.kind.Dir? then Pre else Leaf
    requires p != [] ==> Parent(p) in s.number && s.number[Parent(p)] == Tag(m, Parent(p))
    ensures var s' := StatsStep(s, Event(info, p, t.kind, t.attr));
            && Added(s, s', Share(Code(m), p, t), Share(Data(m), p, t), Share(Cache(m), p, t))
            && p in s'.number && s'.number[p] == Tag(m, p) && NumbersKept(s.number, s'.number, p)
  {
    assert p in Flat(t, p);
    if p != [] {
      TagInherited(m, p);
    }
  }

  lemma {:induction false} StatsForest(m: SizeMap, s: Stats, ts: seq<SizeTree>, p: Path)
    requires WellFormedForest(ts) && Contains(m, FlatForest(ts, p))
    requires p in s.number && s.number[p] == Tag(m, p)
    ensures var s' := Fold(StatsStep, s, ForestEvents(ts, p));
            && Added(s, s', PartForest(Code(m), ts, p), PartForest(Data(m), ts, p), PartForest(Cache(m), ts, p))
            && p in s'.number && s'.number[p] == Tag(m, p) && NumbersKept(s.number, s'.number, p)
    decreases ts, 0
  {
    hide StatsStep, Tag, Share;
    if ts != [] {
      var p0 := p + [ts[0].name];
      assert Parent(p0) == p;
      FoldForest(StatsStep, s, ts, p);
      ContainsParts(m, ts, p);
      StatsTree(m, s, ts[0], p0);
      StatsForest(m, Fold(StatsStep, s, Events(ts[0], p0)), ts[1..], p);
    }
  }

  // ----- sums over parts

  /** Two disjoint parts that make up a third. */
  lemma {:induction false} PartsAdd(a: Part, b: Part, t: SizeTree, p: Path)
    requires forall q, u :: In(a, q, u) <==> !In(b, q, u)
    ensures PartSize(a, t, p) + PartSize(b, t, p) == TreeSize(t)
    decreases t, 1
  {
    PartsAddForest(a, b, t.kids, p);
  }

  lemma {:induction false} PartsAddForest(a: Part, b: Part, ts: seq<SizeTree>, p: Path)
    requires forall q, u :: In(a, q, u) <==> !In(b, q, u)
    ensures PartForest(a, ts, p) + PartForest(b, ts, p) == ForestSize(ts)
    decreases ts, 0
  {
    if ts != [] {
      PartsAdd(a, b, ts[0], p + [ts[0].name]);
      PartsAddForest(a, b, ts[1..], p);
    }
  }

  lemma {:induction false} PartWithin(a: Part, b: Part, t: SizeTree, p: Path)
    requires forall q, u :: In(a, q, u) ==> In(b, q, u)
    ensures PartSize(a, t, p) <= PartSize(b, t, p)
    decreases t, 1
  {
    PartForestWithin(a, b, t.kids, p);
  }

  lemma {:induction false} PartForestWithin(a: Part, b: Part, ts: seq<SizeTree>, p: Path)
    requires forall q, u :: In(a, q, u) ==> In(b, q, u)
    ensures PartForest(a, ts, p) <= PartForest(b, ts, p)
    decreases ts, 0
  {
    if ts != [] {
      PartWithin(a, b, ts[0], p + [ts[0].name]);
      PartForestWithin(a, b, ts[1..], p);
    }
  }

  const NO_STATS := Stats(0, 0, 0, map[])

  /**
    The three totals are the sizes of the entries at or below a directory
    Android/obb/x, of all others, and of those at or below a directory
    Android/data/x/cache: code and data partition the tree, cache is in data.
   */
  lemma {:induction false} StatsPartition(root: SizeTree)
    requires WellFormed(root)
    ensures var s, m := Fold(StatsStep, NO_STATS, Events(root, [])), Flat(root, []);
            && s.code == PartSize(Code(m), root, [])
            && s.data == PartSize(Data(m), root, [])
            && s.cache == PartSize(Cache(m), root, [])
            && s.code + s.data == TreeSize(root)
            && 0 <= s.cache <= s.data
  {
    var m := Flat(root, []);
    StatsTree(m, NO_STATS, root, []);
    PartsAdd(Code(m), Data(m), root, []);
    PartWithin(Cache(m), Data(m), root, []);
  }

  /** The loop over fts_read. */
  method CollectStats(root: SizeTree, events: seq<SizeEvent>) returns (code: int, data: int, cache: int)
    requires WellFormed(root) && events == Events(root, [])
    ensures code == PartSize(Code(Flat(root, [])), root, [])
    ensures cache == PartSize(Cache(Flat(root, [])), root, [])
    ensures code + data == TreeSize(root) && 0 <= cache <= data
  {
    var number: map<Path, int> := map[];
    code, data, cache := 0, 0, 0;
    for i := 0 to |events|
      invariant Stats(code, data, cache, number) == Fold(StatsStep, NO_STATS, events[..i])
    {
      FoldNext(StatsStep, NO_STATS, events, i);
      var e := events[i];
      var tag := NumberOf(number, e.path);
      if e.info.Pre? {
        if |e.path| == 3 && e.path[1] == "obb" && e.path[0] == "Android" {
          tag := 1;
        } else if |e.path| == 4 && e.path[3] == "cache" && e.path[1] == "data" && e.path[0] == "Android" {
          tag := 2;
        }
      }
      number := number[e.path := tag];
      if !e.info.Post? {
        if tag == 1 {
          code := code + e.attr;
        } else {
          if tag == 2 {
            cache := cache + e.attr;
          }
          data := data + e.attr;
        }
      }
    }
    assert events[..|events|] == events;
    StatsPartition(root);
  }

  // ----- getExternalSize, measured by hand

  datatype Sizes = Sizes(total: int, audio: int, video: int, image: int, app: int, number: map<Path, int>)

  /** The walk's root is named by a user id, so it has no extension. */
  function MediaOf(table: string -> Media, number: map<Path, int>, e: SizeEvent): Media {
    if e.kind.File? && e.path != [] && NumberOf(number, e.path) == 0
    then Categorize(table, e.path[|e.path| - 1]) else NoMedia
  }

  function SizesStep(table: string -> Media): (Sizes, SizeEvent) -> Sizes {
    (s: Sizes, e: SizeEvent) =>
      if e.info.Post? then s
      else
        var up := NumberOf(s.number, e.path);
        var media := MediaOf(table, s.number, e);
        Sizes(s.total + e.attr,
              if media == Audio then s.audio + e.attr else s.audio,
              if media == Video then s.video + e.attr else s.video,
              if media == Image then s.image + e.attr else s.image,
              if up == 1 then s.app + e.attr else s.app,
              if e.kind.File? || e.kind.Dir?
              then s.number[e.path := if |e.path| == 1 && e.path[0] == "Android" then 1 else up]
              else s.number)
  }

  function AndroidTag(q: Path): int {
    if |q| >= 1 && q[0] == "Android" then 1 else 0
  }

  ghost predicate Grew(s: Sizes, s': Sizes, total: nat, app: nat, audio: nat, video: nat, image: nat) {
    && s'.total == s.total + total && s'.app == s.app + app
    && s'.audio == s.audio + audio && s'.video == s.video + video && s'.image == s.image + image
  }

  lemma {:induction false} SizesTree(table: string -> Media, s: Sizes, t: SizeTree, p: Path)
    requires WellFormed(t)
    requires p != [] ==> Parent(p) in s.number && s.number[Parent(p)] == AndroidTag(Parent(p))
    ensures var s' := Fold(SizesStep(table), s, Events(t, p));
            && Grew(s, s', TreeSize(t), PartSize(App, t, p), PartSize(Category(table, Audio), t, p),
                    PartSize(Category(table, Video), t, p), PartSize(Category(table, Image), t, p))
            && NumbersKept(s.number, s'.number, p)
    decreases t, 1
  {
    hide SizesStep, Share;
    if t.kind.Dir? {
      FoldDir(SizesStep(table), s, t, p);
      SizesVisit(table, s, Pre, t, p);
      var s1 := SizesStep(table)(s, Event(Pre, p, t.kind, t.attr));
      SizesForest(table, s1, t.kids, p);
      SizesLastVisit(table, Fold(SizesStep(table), s1, ForestEvents(t.kids, p)), t, p);
    } else {
      FoldLeaf(SizesStep(table), s, t, p);
      SizesVisit(table, s, Leaf, t, p);
    }
  }

  lemma {:induction false} SizesLastVisit(table: string -> Media, s: Sizes, t: SizeTree, p: Path)
    ensures SizesStep(table)(s, Event(Post, p, t.kind, t.attr)) == s
  {
  }

  /** The first visit to an entry adds it to the parts it is in. */
  lemma {:induction false} SizesVisit(table: string -> Media, s: Sizes, info: Info, t: SizeTree, p: Path)
    requires info != Post
    requires p != [] ==> Parent(p) in s.number && s.number[Parent(p)] == AndroidTag(Parent(p))
    ensures var s' := SizesStep(table)(s, Event(info, p, t.kind, t.attr));
            && Grew(s, s', t.attr, Share(App, p, t), Share(Category(table, Audio), p, t),
                    Share(Category(table, Video), p, t), Share(Category(table, Image), p, t))
            && NumbersKept(s.number, s'.number, p)
            && (t.kind.Dir? ==> p in s'.number && s'.number[p] == AndroidTag(p))
  {
    hide Categorize;
    assert NumberOf(s.number, p) == if AppBelow(p) then 1 else 0;
  }

  lemma {:induction false} SizesForest(table: string -> Media, s: Sizes, ts: seq<SizeTree>, p: Path)
    requires WellFormedForest(ts) && p in s.number && s.number[p] == AndroidTag(p)
    ensures var s' := Fold(SizesStep(table), s, ForestEvents(ts, p));
            && Grew(s, s', ForestSize(ts), PartForest(App, ts, p), PartForest(Category(table, Audio), ts, p),
                    PartForest(Category(table, Video), ts, p), PartForest(Category(table, Image), ts, p))
            && p in s'.number && s'.number[p] == AndroidTag(p) && NumbersKept(s.number, s'.number, p)
    decreases ts, 0
  {
    hide SizesStep, Share;
    if ts != [] {
      var p0 := p + [ts[0].name];
      assert Parent(p0) == p;
      FoldForest(SizesStep(table), s, ts, p);
      SizesTree(table, s, ts[0], p0);
      SizesForest(table, Fold(SizesStep(table), s, Events(ts[0], p0)), ts[1..], p);
    }
  }

  /** What the categories and the apps share is nothing. */
  lemma {:induction false} PartsApart(table: string -> Media, t: SizeTree, p: Path)
    ensures PartSize(Category(table, Audio), t, p) + PartSize(Category(table, Video), t, p)
            + PartSize(Category(table, Image), t, p) + PartSize(App, t, p) <= TreeSize(t)
    decreases t, 1
  {
    PartsApartForest(table, t.kids, p);
  }

  lemma {:induction false} PartsApartForest(table: string -> Media, ts: seq<SizeTree>, p: Path)
    ensures PartForest(Category(table, Audio), ts, p) + PartForest(Category(table, Video), ts, p)
            + PartForest(Category(table, Image), ts, p) + PartForest(App, ts, p) <= ForestSize(ts)
    decreases ts, 0
  {
    if ts != [] {
      PartsApart(table, ts[0], p + [ts[0].name]);
      PartsApartForest(table, ts[1..], p);
    }
  }

  const NO_SIZES := Sizes(0, 0, 0, 0, 0, map[])

  function Measured(table: string -> Media, root: SizeTree): Sizes {
    Fold(SizesStep(table), NO_SIZES, Events(root, []))
  }

  /**
    The total is every entry's size, `app` that of everything strictly below
    Android, and each category that of the regular files elsewhere with a
    matching extension; the four parts never overlap.
   */
  lemma {:induction false} SizesPartition(table: string -> Media, root: SizeTree)
    requires WellFormed(root)
    ensures var s := Measured(table, root);
            && s.total == TreeSize(root) && s.app == PartSize(App, root, [])
            && s.audio == PartSize(Category(table, Audio), root, [])
            && s.video == PartSize(Category(table, Video), root, [])
            && s.image == PartSize(Category(table, Image), root, [])
            && s.audio + s.video + s.image + s.app <= s.total
  {
    SizesTree(table, NO_SIZES, root, []);
    PartsApart(table, root, []);
  }

  // ----- deducting Android/obb

  function Child(ts: seq<SizeTree>, name: string): (r: seq<SizeTree>)
    ensures |r| <= 1
    ensures |r| == 1 ==> r[0] in ts && r[0].name == name
    ensures r == [] ==> forall k :: 0 <= k < |ts| ==> ts[k].name != name
  {
    if ts == [] then [] else if ts[0].name == name then [ts[0]] else Child(ts[1..], name)
  }

  /**
    What calculate_tree_size finds at Android/obb.  Opening that path follows a
    symbolic link named Android, so then the size is that of some tree
    elsewhere; without the directory the measurement fails and adds nothing.
   */
  function ObbSize(root: SizeTree, elsewhere: nat): nat {
    var android := Child(root.kids, "Android");
    if android == [] then 0
    else match android[0].kind
      case Dir =>
        var obb := Child(android[0].kids, "obb");
        if obb == [] then 0 else TreeSize(obb[0])
      case Link => elsewhere
      case _ => 0
  }

  predicate AndroidIsLink(root: SizeTree) {
    var android := Child(root.kids, "Android");
    android != [] && android[0].kind.Link?
  }

  lemma {:induction false} PartNone(part: Part, t: SizeTree, p: Path)
    requires forall q, u :: p <= q ==> !In(part, q, u)
    ensures PartSize(part, t, p) == 0
    decreases t, 1
  {
    PartForestNone(part, t.kids, p);
  }

  lemma {:induction false} PartForestNone(part: Part, ts: seq<SizeTree>, p: Path)
    requires forall q, u :: p <= q ==> !In(part, q, u)
    ensures PartForest(part, ts, p) == 0
    decreases ts, 0
  {
    if ts != [] {
      assert p <= p + [ts[0].name];
      PartNone(part, ts[0], p + [ts[0].name]);
      PartForestNone(part, ts[1..], p);
    }
  }

  lemma {:induction false} PartWhole(part: Part, t: SizeTree, p: Path)
    requires forall q, u :: p <= q ==> In(part, q, u)
    ensures PartSize(part, t, p) == TreeSize(t)
    decreases t, 1
  {
    PartForestWhole(part, t.kids, p);
  }

  lemma {:induction false} PartForestWhole(part: Part, ts: seq<SizeTree>, p: Path)
    requires forall q, u :: p <= q ==> In(part, q, u)
    ensures PartForest(part, ts, p) == ForestSize(ts)
    decreases ts, 0
  {
    if ts != [] {
      assert p <= p + [ts[0].name];
      PartWhole(part, ts[0], p + [ts[0].name]);
      PartForestWhole(part, ts[1..], p);
    }
  }

  /** A part with entries below one name only is what that child has of it. */
  lemma {:induction false} OneChild(part: Part, ts: seq<SizeTree>, p: Path, name: string)
    requires WellFormedForest(ts)
    requires forall q, u :: p < q && In(part, q, u) ==> q[|p|] == name
    ensures var r := Child(ts, name);
            PartForest(part, ts, p) == if r == [] then 0 else PartSize(part, r[0], p + [name])
    decreases |ts|
  {
    if ts != [] {
      var p0 := p + [ts[0].name];
      OneChild(part, ts[1..], p, name);
      if ts[0].name != name {
        forall q, u | p0 <= q
          ensures !In(part, q, u)
        {
          assert p0[|p|] == ts[0].name && p < q;
        }
        PartNone(part, ts[0], p0);
      }
    }
  }

  /** Unless Android is a symbolic link, the size deducted is that of the entries at or below Android/obb. */
  lemma {:induction false} ObbIsPart(root: SizeTree, elsewhere: nat)
    requires WellFormed(root) && !AndroidIsLink(root)
    ensures ObbSize(root, elsewhere) == PartSize(Obb, root, [])
  {
    OneChild(Obb, root.kids, [], "Android");
    var android := Child(root.kids, "Android");
    if android != [] {
      ChildWellFormed(root.kids, "Android");
      var p := [] + ["Android"];
      OneChild(Obb, android[0].kids, p, "obb");
      var obb := Child(android[0].kids, "obb");
      if obb != [] {
        PartWhole(Obb, obb[0], p + ["obb"]);
      }
    }
  }

  lemma {:induction false} ChildWellFormed(ts: seq<SizeTree>, name: string)
    requires WellFormedForest(ts)
    ensures var r := Child(ts, name); r != [] ==> WellFormed(r[0])
    decreases |ts|
  {
    if ts != [] && ts[0].name != name {
      ChildWellFormed(ts[1..], name);
    }
  }

  lemma {:induction false} ChildWithin(part: Part, ts: seq<SizeTree>, p: Path, name: string)
    ensures var r := Child(ts, name); r != [] ==> PartSize(part, r[0], p + [name]) <= PartForest(part, ts, p)
    decreases |ts|
  {
    if ts != [] && ts[0].name != name {
      ChildWithin(part, ts[1..], p, name);
    }
  }

  lemma {:induction false} ObbWithinApp(root: SizeTree, elsewhere: nat)
    requires !AndroidIsLink(root)
    ensures ObbSize(root, elsewhere) <= PartSize(App, root, [])
  {
    ChildWithin(App, root.kids, [], "Android");
    var android := Child(root.kids, "Android");
    if android != [] {
      var p := [] + ["Android"];
      ChildWithin(App, android[0].kids, p, "obb");
      var obb := Child(android[0].kids, "obb");
      if obb != [] {
        PartWhole(App, obb[0], p + ["obb"]);
      }
    }
  }

  /**
    The reported total, which has OBB files deducted, still covers audio, video
    and images together, whatever a link leads to, exactly when Android is not
    a symbolic link.
   */
  lemma {:induction false} DeductionIsCovered(table: string -> Media, root: SizeTree)
    requires WellFormed(root)
    ensures var s := Measured(table, root);
            (forall elsewhere: nat :: s.total - ObbSize(root, elsewhere) >= s.audio + s.video + s.image)
            <==> !AndroidIsLink(root)
  {
    var s := Measured(table, root);
    SizesPartition(table, root);
    if AndroidIsLink(root) {
      assert ObbSize(root, TreeSize(root) + 1) == TreeSize(root) + 1;
    } else {
      forall elsewhere: nat
        ensures s.total - ObbSize(root, elsewhere) >= s.audio + s.video + s.image
      {
        ObbWithinApp(root, elsewhere);
      }
    }
  }

  /** With Android a link of 512 bytes to a place with a 4096-byte obb, the reported total is negative. */
  lemma {:induction false} NegativeTotal(table: string -> Media)
    ensures var root := Tree("0", Dir, 512, [Tree("Android", Link, 512, [])]);
            WellFormed(root) && Measured(table, root).total - ObbSize(root, 4096) == -3072
  {
    var none: seq<SizeTree> := [];
    var link := Tree("Android", Link, 512, none);
    var kids := [link];
    var root := Tree("0", Dir, 512, kids);
    assert kids[1..] == none;
    assert WellFormedForest(none) && WellFormed(link);
    assert WellFormedForest(kids);
    SizesPartition(table, root);
    assert ForestSize(none) == 0;
    assert ForestSize(kids) == 512;
  }

  /** calculate_tree_size without filters. */
  method MeasureTree(t: SizeTree, p: Path, events: seq<SizeEvent>) returns (size: int)
    requires WellFormed(t) && events == Events(t, p)
    ensures size == TreeSize(t)
  {
    size := 0;
    for i := 0 to |events|
      invariant size == Fold(CountStep, 0, events[..i])
    {
      FoldNext(CountStep, 0, events, i);
      if !events[i].info.Post? {
        size := size + events[i].attr;
      }
    }
    assert events[..|events|] == events;
    CountTree(0, t, p);
  }

  function CountStep(s: int, e: SizeEvent): int {
    if e.info.Post? then s else s + e.attr
  }

  lemma {:induction false} CountTree(s: int, t: SizeTree, p: Path)
    requires WellFormed(t)
    ensures Fold(CountStep, s, Events(t, p)) == s + TreeSize(t)
    decreases t, 1
  {
    if t.kind.Dir? {
      FoldDir(CountStep, s, t, p);
      CountForest(s + t.attr, t.kids, p);
    } else {
      FoldLeaf(CountStep, s, t, p);
    }
  }

  lemma {:induction false} CountForest(s: int, ts: seq<SizeTree>, p: Path)
    requires WellFormedForest(ts)
    ensures Fold(CountStep, s, ForestEvents(ts, p)) == s + ForestSize(ts)
    decreases ts, 0
  {
    if ts != [] {
      FoldForest(CountStep, s, ts, p);
      CountTree(s, ts[0], p + [ts[0].name]);
      CountForest(s + TreeSize(ts[0]), ts[1..], p);
    }
  }

  /** The loop over fts_read. */
  method MeasureParts(table: string -> Media, root: SizeTree, events: seq<SizeEvent>)
    returns (total: int, audio: int, video: int, image: int, app: int)
    requires events == Events(root, [])
    ensures var s := Measured(table, root);
            s.total == total && s.audio == audio && s.video == video && s.image == image && s.app == app
  {
    hide Categorize, Events;
    var number: map<Path, int> := map[];
    total, audio, video, image, app := 0, 0, 0, 0, 0;
    for i := 0 to |events|
      invariant Sizes(total, audio, video, image, app, number) == Fold(SizesStep(table), NO_SIZES, events[..i])
    {
      FoldNext(SizesStep(table), NO_SIZES, events, i);
      var e := events[i];
      if !e.info.Post? {
        var up := NumberOf(number, e.path);
        if e.kind.File? && up == 0 && e.path != [] {
          match Categorize(table, e.path[|e.path| - 1])
          case Audio => audio := audio + e.attr;
          case Video => video := video + e.attr;
          case Image => image := image + e.attr;
          case NoMedia =>
        }
        if e.kind.File? || e.kind.Dir? {
          number := number[e.path := if |e.path| == 1 && e.path[0] == "Android" then 1 else up];
        }
        if up == 1 {
          app := app + e.attr;
        }
        total := total + e.attr;
      }
    }
    assert events[..|events|] == events;
  }

  /** Finding and measuring Android/obb; `elsewhere` is its size where a symbolic link named Android leads. */
  method MeasureObb(root: SizeTree, elsewhere: nat) returns (obb: int)
    requires WellFormed(root)
    ensures obb == ObbSize(root, elsewhere)
    ensures obb == if AndroidIsLink(root) then elsewhere else PartSize(Obb, root, [])
  {
    if !AndroidIsLink(root) {
      ObbIsPart(root, elsewhere);
    }
    obb := 0;
    var android := Child(root.kids, "Android");
    if android == [] {
      return;
    }
    ChildWellFormed(root.kids, "Android");
    if android[0].kind.Link? {
      return elsewhere;
    }
    var found := Child(android[0].kids, "obb");
    if android[0].kind.Dir? && found != [] {
      ChildWellFormed(android[0].kids, "obb");
      obb := MeasureTree(found[0], ["Android", "obb"], Events(found[0], ["Android", "obb"]));
    }
  }

  /**
    getExternalSize without quota: total after deduction, then audio, video,
    image, app and obb.  Unless Android is a symbolic link the total is the size
    of all entries but those at or below Android/obb, and obb that of these.
   */
  method GetExternalSize(table: string -> Media, root: SizeTree, events: seq<SizeEvent>, elsewhere: nat)
    returns (total: int, audio: int, video: int, image: int, app: int, obb: int)
    requires WellFormed(root) && events == Events(root, [])
    ensures total + obb == TreeSize(root) && obb == ObbSize(root, elsewhere)
    ensures AndroidIsLink(root) ==> obb == elsewhere
    ensures !AndroidIsLink(root) ==> obb == PartSize(Obb, root, []) && total == PartSize(NotObb, root, [])
    ensures app == PartSize(App, root, [])
    ensures audio == PartSize(Category(table, Audio), root, [])
    ensures video == PartSize(Category(table, Video), root, [])
    ensures image == PartSize(Category(table, Image), root, [])
    ensures !AndroidIsLink(root) ==> audio + video + image <= total
  {
    hide Measured, PartSize, TreeSize, Events, WellFormed, AndroidIsLink, ObbSize;
    total, audio, video, image, app := MeasureParts(table, root, events);
    SizesPartition(table, root);
    obb := MeasureObb(root, elsewhere);
    total := total - obb;
    DeductionIsCovered(table, root);
    PartsAdd(Obb, NotObb, root, []);
  }
}

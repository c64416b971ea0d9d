/**
  InstalldNativeService::fixupAppData for one user directory: a walk that
  repairs the group of app data, level 1 being the package directories.
 */
module GidFixup {
  import opened Fts

  /**
    An entry's stat and xattrs.  `cacheGid` is get_cache_gid of its owner, and
    the last two are the inodes of its cache directories, 0 when unset.
   */
  datatype Own = Own(uid: int, cacheGid: int, gid: int, mode: int, ino: int, cacheIno: int, codeIno: int)

  type OwnTree = Tree<Own>
  type OwnMap = map<Path, Entry<Own>>
  type OwnEvent = Event<Own>

  /** 02771 in octal. */
  const SETGID_MODE := 1529

  /** The GID a package directory expects of a child. */
  function ChildGid(pkg: Own, name: string, child: Own): int {
    if child.ino == pkg.cacheIno || child.ino == pkg.codeIno || name == "cache" || name == "code_cache"
    then pkg.cacheGid else pkg.uid
  }

  /** The current GID is unexpected and belongs to the app that owns the parent. */
  predicate Wrong(above: Own, expected: int, a: Own) {
    a.gid != expected && (a.gid == above.uid || a.gid == above.cacheGid)
  }

  /** chown, and for a directory moving to its cache GID also chmod. */
  function Repaired(above: Own, expected: int, kind: Kind, a: Own): Own {
    match kind
    case Dir => a.(gid := expected, mode := if expected == above.cacheGid then SETGID_MODE else a.mode)
    case File => a.(gid := expected)
    case Link => a.(gid := expected)
    case Other => a
  }

  // ----- the walk, one event at a time

  /**
    `number` is fts_number and `stats` the stat of each entry first visited;
    `skip` is the last entry whose subtree FTS_SKIP suppressed.
   */
  datatype Walk = Walk(fs: OwnMap, number: map<Path, int>, stats: map<Path, Own>, skip: seq<Path>, force: bool)

  predicate Suppressed(w: Walk, p: Path) {
    |w.skip| == 1 && w.skip[0] < p
  }

  function Visit(w: Walk, e: OwnEvent, above: Own, expected: int): Walk {
    if Wrong(above, expected, e.attr) then
      if e.info.Pre? || e.path !in w.fs then w
      else w.(fs := w.fs[e.path := Entry(e.kind, Repaired(above, expected, e.kind, w.fs[e.path].attr))])
    else if w.force || !e.info.Pre? then w
    else w.(skip := [e.path])
  }

  function Step(w: Walk, e: OwnEvent): Walk {
    if Suppressed(w, e.path) then w
    else
      var w1 := if e.info.Pre? then w.(stats := w.stats[e.path := e.attr]) else w;
      if |e.path| < 2 || Parent(e.path) !in w.stats then w1
      else
        var above := w.stats[Parent(e.path)];
        var expected := if |e.path| == 2 then ChildGid(above, e.path[1], e.attr)
                        else if Parent(e.path) in w.number then w.number[Parent(e.path)] else 0;
        Visit(w1.(number := w1.number[e.path := expected]), e, above, expected)
  }

  // ----- the recursive meaning

  /** How children get their expected GID: each from the package directory, or all from above. */
  datatype Rule = PerChild | Inherit(gid: int)

  function ExpectedOf(rule: Rule, above: Own, name: string, child: Own): int {
    match rule
    case PerChild => ChildGid(above, name, child)
    case Inherit(gid) => gid
  }

  function Expected(rule: Rule, above: Own, t: OwnTree): int {
    ExpectedOf(rule, above, t.name, t.attr)
  }

  /** A tree at level 2 or deeper, held by `above`. */
  function Fix(t: OwnTree, above: Own, expected: int, force: bool): OwnTree
    decreases t, 1
  {
    if Wrong(above, expected, t.attr) then
      t.(attr := Repaired(above, expected, t.kind, t.attr), kids := FixForest(t.kids, t.attr, Inherit(expected), force))
    else if force then t.(kids := FixForest(t.kids, t.attr, Inherit(expected), force))
    else t
  }

  function FixForest(ts: seq<OwnTree>, above: Own, rule: Rule, force: bool): seq<OwnTree>
    decreases ts, 0
  {
    if ts == [] then []
    else [Fix(ts[0], above, Expected(rule, above, ts[0]), force)] + FixForest(ts[1..], above, rule, force)
  }

  function FixPackage(t: OwnTree, force: bool): OwnTree {
    t.(kids := FixForest(t.kids, t.attr, PerChild, force))
  }

  function FixPackages(ts: seq<OwnTree>, force: bool): seq<OwnTree> {
    if ts == [] then []
    else [FixPackage(ts[0], force)] + FixPackages(ts[1..], force)
  }

  function FixUser(root: OwnTree, force: bool): OwnTree {
    root.(kids := FixPackages(root.kids, force))
  }

  // ----- fixing twice is fixing once

  lemma {:induction false} RepairedOnce(above: Own, expected: int, kind: Kind, a: Own)
    ensures var r := Repaired(above, expected, kind, a);
            && r.uid == a.uid && r.cacheGid == a.cacheGid && r.ino == a.ino
            && r.cacheIno == a.cacheIno && r.codeIno == a.codeIno
            && (kind != Other ==> !Wrong(above, expected, r))
            && (kind == Other ==> r == a)
  {
  }

  /** What the children see of the directory above them survives its repair. */
  ghost predicate Alike(a: Own, b: Own) {
    a.uid == b.uid && a.cacheGid == b.cacheGid && a.cacheIno == b.cacheIno && a.codeIno == b.codeIno
  }

  lemma {:induction false} FixForestAlike(ts: seq<OwnTree>, above: Own, above': Own, rule: Rule, force: bool)
    requires Alike(above, above')
    ensures FixForest(ts, above, rule, force) == FixForest(ts, above', rule, force)
    decreases |ts|
  {
    if ts != [] {
      FixForestAlike(ts[1..], above, above', rule, force);
    }
  }

  lemma {:induction false} FixTwice(t: OwnTree, above: Own, expected: int, force: bool)
    requires WellFormed(t)
    ensures Fix(Fix(t, above, expected, force), above, expected, force) == Fix(t, above, expected, force)
    decreases t, 1
  {
    RepairedOnce(above, expected, t.kind, t.attr);
    FixForestTwice(t.kids, t.attr, Inherit(expected), force);
    FixForestAlike(FixForest(t.kids, t.attr, Inherit(expected), force), t.attr,
                   Repaired(above, expected, t.kind, t.attr), Inherit(expected), force);
  }

  lemma {:induction false} FixForestTwice(ts: seq<OwnTree>, above: Own, rule: Rule, force: bool)
    requires WellFormedForest(ts)
    ensures FixForest(FixForest(ts, above, rule, force), above, rule, force) == FixForest(ts, above, rule, force)
    decreases ts, 0
  {
    if ts != [] {
      var expected := Expected(rule, above, ts[0]);
      var r, rest := Fix(ts[0], above, expected, force), FixForest(ts[1..], above, rule, force);
      RepairedOnce(above, expected, ts[0].kind, ts[0].attr);
      FixTwice(ts[0], above, expected, force);
      FixForestTwice(ts[1..], above, rule, force);
      assert Expected(rule, above, r) == expected;
      assert FixForest(ts, above, rule, force) == [r] + rest && ([r] + rest)[1..] == rest;
    }
  }

  lemma {:induction false} FixPackagesTwice(ts: seq<OwnTree>, force: bool)
    requires WellFormedForest(ts)
    ensures FixPackages(FixPackages(ts, force), force) == FixPackages(ts, force)
    decreases |ts|
  {
    if ts != [] {
      FixForestTwice(ts[0].kids, ts[0].attr, PerChild, force);
      FixPackagesTwice(ts[1..], force);
    }
  }

  /** Fixing up is idempotent, with and without FORCE. */
  lemma {:induction false} FixupIsIdempotent(root: OwnTree, force: bool)
    requires WellFormed(root)
    ensures FixUser(FixUser(root, force), force) == FixUser(root, force)
  {
    FixPackagesTwice(root.kids, force);
  }

  // ----- the walk computes the recursive meaning

  /** Away from the paths `inside`, the walk changed nothing. */
  ghost predicate Untouched(w: Walk, w': Walk, q: Path) {
    && Same(w.fs, w'.fs, q)
    && (q in w'.stats <==> q in w.stats) && (q in w.stats ==> w'.stats[q] == w.stats[q])
    && (q in w'.number <==> q in w.number) && (q in w.number ==> w'.number[q] == w.number[q])
  }

  ghost predicate SameOutside(w: Walk, w': Walk, p: Path) {
    && w'.force == w.force
    && (forall q: Path :: !(p <= q) ==> Untouched(w, w', q))
    && (w'.skip == w.skip || (|w'.skip| == 1 && p <= w'.skip[0]))
  }

  ghost predicate SameElsewhere(w: Walk, w': Walk, ts: seq<OwnTree>, p: Path) {
    && w'.force == w.force
    && (forall q: Path :: !Region(ts, p, q) ==> Untouched(w, w', q))
    && (w'.skip == w.skip || (|w'.skip| == 1 && Region(ts, p, w'.skip[0])))
  }

  /** No suppressed subtree meets the one at `p`. */
  ghost predicate Open(w: Walk, p: Path) {
    |w.skip| == 1 ==> !(w.skip[0] < p) && !(p <= w.skip[0])
  }

  ghost predicate OpenIn(w: Walk, ts: seq<OwnTree>, p: Path) {
    |w.skip| == 1 ==> !(w.skip[0] <= p) && !Region(ts, p, w.skip[0])
  }

  /** The entry at `p` was visited and tells its children what to expect. */
  ghost predicate Tells(w: Walk, p: Path, above: Own, rule: Rule) {
    && p in w.stats && w.stats[p] == above
    && if |p| == 1 then rule == PerChild else p in w.number && rule == Inherit(w.number[p])
  }

  lemma {:induction false} SkippedForest(w: Walk, ts: seq<OwnTree>, p: Path)
    requires |w.skip| == 1 && w.skip[0] <= p
    ensures Fold(Step, w, ForestEvents(ts, p)) == w
    decreases ts, 0
  {
    if ts != [] {
      FoldForest(Step, w, ts, p);
      SkippedTree(w, ts[0], p + [ts[0].name]);
      SkippedForest(w, ts[1..], p);
    }
  }

  lemma {:induction false} SkippedTree(w: Walk, t: OwnTree, p: Path)
    requires |w.skip| == 1 && w.skip[0] < p
    ensures Fold(Step, w, Events(t, p)) == w
    decreases t, 1
  {
    if t.kind.Dir? {
      FoldDir(Step, w, t, p);
      SkippedForest(w, t.kids, p);
    } else {
      FoldLeaf(Step, w, t, p);
    }
  }

  /** A step at level 2 or deeper, once the expected GID is known. */
  lemma {:induction false} StepVisits(w: Walk, e: OwnEvent, t: OwnTree, above: Own, rule: Rule)
    requires |e.path| >= 2 && e.path[|e.path| - 1] == t.name && e.attr == t.attr
    requires !Suppressed(w, e.path) && Tells(w, Parent(e.path), above, rule)
    ensures var expected := Expected(rule, above, t);
            var w1 := if e.info.Pre? then w.(stats := w.stats[e.path := e.attr]) else w;
            Step(w, e) == Visit(w1.(number := w1.number[e.path := expected]), e, above, expected)
  {
  }

  lemma {:induction false} WalkTree(w: Walk, t: OwnTree, p: Path, above: Own, rule: Rule)
    requires WellFormed(t) && |p| >= 2 && p[|p| - 1] == t.name
    requires Tells(w, Parent(p), above, rule) && Open(w, p) && SameUnder(w.fs, Flat(t, p), p)
    ensures var w' := Fold(Step, w, Events(t, p));
            && SameUnder(w'.fs, Flat(Fix(t, above, Expected(rule, above, t), w.force), p), p)
            && SameOutside(w, w', p)
    decreases t, 1
  {
    hide Step, Visit, SameUnder, SameOutside, SameElsewhere, SameIn, Tells, Wrong;
    var expected := Expected(rule, above, t);
    if !t.kind.Dir? {
      FoldLeaf(Step, w, t, p);
      StepVisits(w, Event(Leaf, p, t.kind, t.attr), t, above, rule);
      WalkLeaf(w, t, p, above, expected);
    } else {
      FoldDir(Step, w, t, p);
      var pre, post := Event(Pre, p, t.kind, t.attr), Event(Post, p, t.kind, t.attr);
      var w0 := w.(stats := w.stats[p := t.attr], number := w.number[p := expected]);
      StepVisits(w, pre, t, above, rule);
      if Wrong(above, expected, t.attr) || w.force {
        FirstVisit(w, t, p, expected);
        VisitPasses(w0, pre, above, expected);
        WalkForest(w0, t.kids, p, t.attr, Inherit(expected));
        var w2 := Fold(Step, w0, ForestEvents(t.kids, p));
        LastReady(w, w2, t, p, above, rule);
        LastVisit(w, w2, t, p, above, expected);
        StepVisits(w2, post, t, above, rule);
      } else {
        var w1 := w0.(skip := [p]);
        VisitSkips(w, t, p, above, rule);
        SkippedForest(w1, t.kids, p);
        StepVisits(w1, post, t, above, rule);
      }
    }
  }

  lemma {:induction false} VisitPasses(w: Walk, e: OwnEvent, above: Own, expected: int)
    requires e.info.Pre? && (Wrong(above, expected, e.attr) || w.force)
    ensures Visit(w, e, above, expected) == w
  {
  }

  /** An entry that is left alone without FORCE is passed over with all it holds. */
  lemma {:induction false} VisitSkips(w: Walk, t: OwnTree, p: Path, above: Own, rule: Rule)
    requires |p| >= 2 && Tells(w, Parent(p), above, rule) && SameUnder(w.fs, Flat(t, p), p)
    requires !Wrong(above, Expected(rule, above, t), t.attr) && !w.force
    ensures var expected := Expected(rule, above, t);
            var w0 := w.(stats := w.stats[p := t.attr], number := w.number[p := expected]);
            var w1 := w0.(skip := [p]);
            && Visit(w0, Event(Pre, p, t.kind, t.attr), above, expected) == w1
            && Tells(w1, Parent(p), above, rule)
            && Visit(w1.(number := w1.number[p := expected]), Event(Post, p, t.kind, t.attr), above, expected) == w1
            && SameOutside(w, w1, p)
            && SameUnder(w1.fs, Flat(Fix(t, above, expected, w.force), p), p)
  {
    var expected := Expected(rule, above, t);
    var number := w.number[p := expected];
    assert number[p := expected] == number;
  }

  lemma {:induction false} WalkLeaf(w: Walk, t: OwnTree, p: Path, above: Own, expected: int)
    requires WellFormed(t) && !t.kind.Dir? && SameUnder(w.fs, Flat(t, p), p)
    ensures var w' := Visit(w.(number := w.number[p := expected]), Event(Leaf, p, t.kind, t.attr), above, expected);
            && SameUnder(w'.fs, Flat(Fix(t, above, expected, w.force), p), p) && SameOutside(w, w', p)
  {
    assert FixForest(t.kids, t.attr, Inherit(expected), w.force) == t.kids;
    assert Same(w.fs, Flat(t, p), p);
    var w' := Visit(w.(number := w.number[p := expected]), Event(Leaf, p, t.kind, t.attr), above, expected);
    forall q: Path | p <= q
      ensures Same(w'.fs, Flat(Fix(t, above, expected, w.force), p), q)
    {
      assert q == p || q !in Flat(t, p);
      assert Same(w.fs, Flat(t, p), q);
    }
  }

  lemma {:induction false} FirstVisit(w: Walk, t: OwnTree, p: Path, expected: int)
    requires WellFormed(t) && |p| >= 2 && Open(w, p) && SameUnder(w.fs, Flat(t, p), p)
    ensures var w0 := w.(stats := w.stats[p := t.attr], number := w.number[p := expected]);
            && Tells(w0, p, t.attr, Inherit(expected)) && OpenIn(w0, t.kids, p)
            && SameIn(w0.fs, FlatForest(t.kids, p), t.kids, p)
  {
    forall q: Path | Region(t.kids, p, q)
      ensures Same(w.fs, FlatForest(t.kids, p), q)
    {
      assert Same(w.fs, Flat(t, p), q) && q != p;
    }
  }

  /** Same shape: as many trees, the same names, still well formed. */
  ghost predicate Matches(ts: seq<OwnTree>, rs: seq<OwnTree>) {
    && |rs| == |ts| && WellFormedForest(rs)
    && forall k :: 0 <= k < |ts| ==> rs[k].name == ts[k].name
  }

  lemma {:induction false} MatchesCons(ts: seq<OwnTree>, r: OwnTree, rs: seq<OwnTree>)
    requires ts != [] && WellFormedForest(ts) && WellFormed(r) && r.name == ts[0].name && Matches(ts[1..], rs)
    ensures Matches(ts, [r] + rs)
  {
    var all := [r] + rs;
    assert all[1..] == rs;
    forall k | 1 <= k < |ts|
      ensures all[k].name == ts[k].name
    {
      assert ts[1..][k - 1] == ts[k] && rs[k - 1].name == ts[1..][k - 1].name;
    }
  }

  lemma {:induction false} FixMatches(t: OwnTree, above: Own, expected: int, force: bool)
    requires WellFormed(t)
    ensures var r := Fix(t, above, expected, force); WellFormed(r) && r.name == t.name && r.kind == t.kind
    decreases t, 1
  {
    FixForestMatches(t.kids, t.attr, Inherit(expected), force);
  }

  lemma {:induction false} FixForestMatches(ts: seq<OwnTree>, above: Own, rule: Rule, force: bool)
    requires WellFormedForest(ts)
    ensures Matches(ts, FixForest(ts, above, rule, force))
    decreases ts, 0
  {
    if ts != [] {
      var expected := Expected(rule, above, ts[0]);
      FixMatches(ts[0], above, expected, force);
      FixForestMatches(ts[1..], above, rule, force);
      MatchesCons(ts, Fix(ts[0], above, expected, force), FixForest(ts[1..], above, rule, force));
    }
  }

  lemma {:induction false} FixPackagesMatches(ts: seq<OwnTree>, force: bool)
    requires WellFormedForest(ts)
    ensures Matches(ts, FixPackages(ts, force))
    decreases |ts|
  {
    if ts != [] {
      FixForestMatches(ts[0].kids, ts[0].attr, PerChild, force);
      FixPackagesMatches(ts[1..], force);
      MatchesCons(ts, FixPackage(ts[0], force), FixPackages(ts[1..], force));
    }
  }

  /** Once its children are done, a directory and what is below it are as `r` says. */
  lemma {:induction false} Assemble(w: Walk, fs: OwnMap, t: OwnTree, r: OwnTree, p: Path)
    requires WellFormed(t) && SameUnder(w.fs, Flat(t, p), p) && Matches(t.kids, r.kids)
    requires SameIn(fs, FlatForest(r.kids, p), t.kids, p) && p in fs && fs[p] == Entry(r.kind, r.attr)
    requires forall q: Path :: p < q && !Region(t.kids, p, q) ==> Same(w.fs, fs, q)
    ensures SameUnder(fs, Flat(r, p), p)
  {
    forall q: Path | p <= q
      ensures Same(fs, Flat(r, p), q)
    {
      if q != p && !Region(t.kids, p, q) {
        assert Same(w.fs, Flat(t, p), q) && Same(w.fs, fs, q);
        if q in FlatForest(t.kids, p) {
          FlatForestUnder(t.kids, p, q);
        }
        if q in FlatForest(r.kids, p) {
          FlatForestUnder(r.kids, p, q);
        }
      }
    }
  }

  lemma {:induction false} Joined(w: Walk, w1: Walk, w': Walk, ts: seq<OwnTree>, rs: seq<OwnTree>, p: Path)
    requires ts != [] && WellFormedForest(ts) && Matches(ts, rs)
    requires SameUnder(w1.fs, Flat(rs[0], p + [ts[0].name]), p + [ts[0].name]) && SameOutside(w, w1, p + [ts[0].name])
    requires SameIn(w'.fs, FlatForest(rs[1..], p), ts[1..], p) && SameElsewhere(w1, w', ts[1..], p)
    ensures SameIn(w'.fs, FlatForest(rs, p), ts, p) && SameElsewhere(w, w', ts, p)
  {
    hide Region;
    var p0 := p + [ts[0].name];
    forall q: Path | Region(ts, p, q)
      ensures Same(w'.fs, FlatForest(rs, p), q)
    {
      RegionSplit(ts, p, q);
      FlatForestSplit(rs, p, q);
      if p0 <= q {
        assert Untouched(w1, w', q) && Same(w1.fs, Flat(rs[0], p0), q);
      } else {
        assert Same(w'.fs, FlatForest(rs[1..], p), q);
      }
    }
    forall q: Path | !Region(ts, p, q)
      ensures Untouched(w, w', q)
    {
      RegionSplit(ts, p, q);
      assert Untouched(w, w1, q) && Untouched(w1, w', q);
    }
    if |w'.skip| == 1 {
      RegionSplit(ts, p, w'.skip[0]);
    }
  }

  /** What a directory's children leave for its last visit. */
  ghost predicate KidsDone(w: Walk, w2: Walk, t: OwnTree, p: Path, expected: int) {
    && SameElsewhere(w.(stats := w.stats[p := t.attr], number := w.number[p := expected]), w2, t.kids, p)
    && SameIn(w2.fs, FlatForest(FixForest(t.kids, t.attr, Inherit(expected), w.force), p), t.kids, p)
  }

  lemma {:induction false} LastReady(w: Walk, w2: Walk, t: OwnTree, p: Path, above: Own, rule: Rule)
    requires |p| >= 2 && Tells(w, Parent(p), above, rule) && Open(w, p)
    requires KidsDone(w, w2, t, p, Expected(rule, above, t))
    ensures Tells(w2, Parent(p), above, rule) && !Suppressed(w2, p)
  {
    var w0 := w.(stats := w.stats[p := t.attr], number := w.number[p := Expected(rule, above, t)]);
    assert Untouched(w0, w2, Parent(p));
  }

  /** Outside the children and the directory itself, nothing changed. */
  lemma {:induction false} LastFrame(w: Walk, w2: Walk, t: OwnTree, p: Path, above: Own, expected: int, q: Path)
    requires KidsDone(w, w2, t, p, expected) && q != p && !Region(t.kids, p, q)
    ensures var w' := Visit(w2.(number := w2.number[p := expected]), Event(Post, p, t.kind, t.attr), above, expected);
            Untouched(w, w', q)
  {
    hide SameIn;
    var w0 := w.(stats := w.stats[p := t.attr], number := w.number[p := expected]);
    assert Untouched(w0, w2, q);
  }

  /** The last visit repairs the directory itself and nothing else. */
  lemma {:induction false} LastRepair(w: Walk, w2: Walk, t: OwnTree, p: Path, above: Own, expected: int)
    requires KidsDone(w, w2, t, p, expected) && t.kind.Dir? && (Wrong(above, expected, t.attr) || w.force)
    requires p in w.fs && w.fs[p] == Entry(t.kind, t.attr)
    ensures var w' := Visit(w2.(number := w2.number[p := expected]), Event(Post, p, t.kind, t.attr), above, expected);
            && p in w'.fs && w'.fs[p] == Entry(t.kind, Fix(t, above, expected, w.force).attr)
            && (forall q: Path :: q != p ==> Same(w2.fs, w'.fs, q))
            && w'.force == w.force && w'.skip == w2.skip
  {
    hide SameIn, FixForest;
    var w0 := w.(stats := w.stats[p := t.attr], number := w.number[p := expected]);
    assert Untouched(w0, w2, p);
  }

  lemma {:induction false} LastVisit(w: Walk, w2: Walk, t: OwnTree, p: Path, above: Own, expected: int)
    requires WellFormed(t) && t.kind.Dir? && SameUnder(w.fs, Flat(t, p), p)
    requires (Wrong(above, expected, t.attr) || w.force) && KidsDone(w, w2, t, p, expected)
    ensures var w' := Visit(w2.(number := w2.number[p := expected]), Event(Post, p, t.kind, t.attr), above, expected);
            && SameUnder(w'.fs, Flat(Fix(t, above, expected, w.force), p), p)
            && SameOutside(w, w', p)
  {
    var w' := Visit(w2.(number := w2.number[p := expected]), Event(Post, p, t.kind, t.attr), above, expected);
    SameAt(w.fs, Flat(t, p), p);
    LastRepair(w, w2, t, p, above, expected);
    hide Visit, Wrong, SameUnder, SameIn, Flat;
    forall q: Path | q != p && !Region(t.kids, p, q)
      ensures Untouched(w, w', q)
    {
      LastFrame(w, w2, t, p, above, expected, q);
    }
    FixForestMatches(t.kids, t.attr, Inherit(expected), w.force);
    SameInKept(w2.fs, w'.fs, FlatForest(FixForest(t.kids, t.attr, Inherit(expected), w.force), p), t.kids, p);
    Assemble(w, w'.fs, t, Fix(t, above, expected, w.force), p);
  }

  lemma {:induction false} SameAt(a: OwnMap, b: OwnMap, p: Path)
    requires SameUnder(a, b, p)
    ensures Same(a, b, p)
  {
  }

  lemma {:induction false} SameInKept(fs: OwnMap, fs': OwnMap, m: OwnMap, ts: seq<OwnTree>, p: Path)
    requires SameIn(fs, m, ts, p) && forall q: Path :: q != p ==> Same(fs, fs', q)
    ensures SameIn(fs', m, ts, p)
  {
    forall q: Path | Region(ts, p, q)
      ensures Same(fs', m, q)
    {
      assert Same(fs, m, q) && Same(fs, fs', q);
    }
  }

  lemma {:induction false} WalkForest(w: Walk, ts: seq<OwnTree>, p: Path, above: Own, rule: Rule)
    requires WellFormedForest(ts) && |p| >= 1
    requires Tells(w, p, above, rule) && OpenIn(w, ts, p) && SameIn(w.fs, FlatForest(ts, p), ts, p)
    ensures var w' := Fold(Step, w, ForestEvents(ts, p));
            && SameIn(w'.fs, FlatForest(FixForest(ts, above, rule, w.force), p), ts, p)
            && SameElsewhere(w, w', ts, p)
    decreases ts, 0
  {
    hide Step, SameIn, SameUnder, SameOutside, SameElsewhere, Expected, Fix;
    if ts == [] {
      NoForest(w, p);
    } else {
      var p0 := p + [ts[0].name];
      FoldForest(Step, w, ts, p);
      SameInFirst(w.fs, ts, p);
      assert Parent(p0) == p;
      OpenFirst(w, ts, p);
      WalkTree(w, ts[0], p0, above, rule);
      var w1 := Fold(Step, w, Events(ts[0], p0));
      NextForest(w, w1, ts, p, above, rule);
      WalkForest(w1, ts[1..], p, above, rule);
      FixForestMatches(ts, above, rule, w.force);
      assert FixForest(ts, above, rule, w.force)[1..] == FixForest(ts[1..], above, rule, w.force);
      Joined(w, w1, Fold(Step, w1, ForestEvents(ts[1..], p)), ts, FixForest(ts, above, rule, w.force), p);
    }
  }

  lemma {:induction false} NoForest(w: Walk, p: Path)
    ensures SameIn(w.fs, map[], [], p) && SameElsewhere(w, w, [], p)
  {
  }

  lemma {:induction false} OpenFirst(w: Walk, ts: seq<OwnTree>, p: Path)
    requires ts != [] && WellFormedForest(ts) && OpenIn(w, ts, p)
    ensures Open(w, p + [ts[0].name])
  {
    var p0 := p + [ts[0].name];
    if |w.skip| == 1 {
      RegionSplit(ts, p, w.skip[0]);
    }
  }

  lemma {:induction false} NextForest(w: Walk, w1: Walk, ts: seq<OwnTree>, p: Path, above: Own, rule: Rule)
    requires ts != [] && WellFormedForest(ts) && Tells(w, p, above, rule) && OpenIn(w, ts, p)
    requires SameIn(w.fs, FlatForest(ts, p), ts, p) && SameOutside(w, w1, p + [ts[0].name])
    ensures Tells(w1, p, above, rule) && OpenIn(w1, ts[1..], p) && SameIn(w1.fs, FlatForest(ts[1..], p), ts[1..], p)
    ensures w1.force == w.force
  {
    hide SameIn;
    var p0 := p + [ts[0].name];
    assert Untouched(w, w1, p);
    forall q: Path | !(p0 <= q)
      ensures Same(w.fs, w1.fs, q)
    {
      assert Untouched(w, w1, q);
    }
    SameInRest(w.fs, w1.fs, ts, p);
    if |w1.skip| == 1 {
      RegionSplit(ts, p, w1.skip[0]);
    }
  }

  // ----- package directories and the user directory are passed through

  lemma {:induction false} WalkPackage(w: Walk, t: OwnTree, p: Path)
    requires WellFormed(t) && |p| == 1 && Open(w, p) && SameUnder(w.fs, Flat(t, p), p)
    ensures var w' := Fold(Step, w, Events(t, p));
            SameUnder(w'.fs, Flat(FixPackage(t, w.force), p), p) && SameOutside(w, w', p)
  {
    if !t.kind.Dir? {
      FoldLeaf(Step, w, t, p);
      assert FixPackage(t, w.force) == t;
    } else {
      FoldDir(Step, w, t, p);
      var w0 := w.(stats := w.stats[p := t.attr]);
      assert Step(w, Event(Pre, p, t.kind, t.attr)) == w0;
      PackageOpens(w, t, p);
      WalkForest(w0, t.kids, p, t.attr, PerChild);
      var w2 := Fold(Step, w0, ForestEvents(t.kids, p));
      assert Step(w2, Event(Post, p, t.kind, t.attr)) == w2;
      PackageDone(w, w2, t, p);
    }
  }

  lemma {:induction false} PackageOpens(w: Walk, t: OwnTree, p: Path)
    requires WellFormed(t) && |p| == 1 && Open(w, p) && SameUnder(w.fs, Flat(t, p), p)
    ensures var w0 := w.(stats := w.stats[p := t.attr]);
            Tells(w0, p, t.attr, PerChild) && OpenIn(w0, t.kids, p) && SameIn(w0.fs, FlatForest(t.kids, p), t.kids, p)
  {
    forall q: Path | Region(t.kids, p, q)
      ensures Same(w.fs, FlatForest(t.kids, p), q)
    {
      assert Same(w.fs, Flat(t, p), q) && q != p;
    }
  }

  lemma {:induction false} PackageDone(w: Walk, w2: Walk, t: OwnTree, p: Path)
    requires WellFormed(t) && SameUnder(w.fs, Flat(t, p), p)
    requires SameElsewhere(w.(stats := w.stats[p := t.attr]), w2, t.kids, p)
    requires SameIn(w2.fs, FlatForest(FixPackage(t, w.force).kids, p), t.kids, p)
    ensures SameUnder(w2.fs, Flat(FixPackage(t, w.force), p), p) && SameOutside(w, w2, p)
  {
    var w0 := w.(stats := w.stats[p := t.attr]);
    hide SameIn;
    assert Untouched(w0, w2, p);
    assert Same(w.fs, Flat(t, p), p);
    forall q: Path | q != p && !Region(t.kids, p, q)
      ensures Untouched(w, w2, q)
    {
      assert Untouched(w0, w2, q);
    }
    FixForestMatches(t.kids, t.attr, PerChild, w.force);
    Assemble(w, w2.fs, t, FixPackage(t, w.force), p);
  }

  lemma {:induction false} WalkPackages(w: Walk, ts: seq<OwnTree>)
    requires WellFormedForest(ts) && OpenIn(w, ts, []) && SameIn(w.fs, FlatForest(ts, []), ts, [])
    ensures var w' := Fold(Step, w, ForestEvents(ts, []));
            SameIn(w'.fs, FlatForest(FixPackages(ts, w.force), []), ts, []) && SameElsewhere(w, w', ts, [])
    decreases |ts|
  {
    hide Step, SameIn, SameUnder, SameOutside, SameElsewhere;
    if ts == [] {
      NoForest(w, []);
    } else {
      var p0 := [] + [ts[0].name];
      FoldForest(Step, w, ts, []);
      SameInFirst(w.fs, ts, []);
      OpenFirst(w, ts, []);
      WalkPackage(w, ts[0], p0);
      var w1 := Fold(Step, w, Events(ts[0], p0));
      NextPackages(w, w1, ts);
      WalkPackages(w1, ts[1..]);
      FixPackagesMatches(ts, w.force);
      assert FixPackages(ts, w.force)[1..] == FixPackages(ts[1..], w.force);
      Joined(w, w1, Fold(Step, w1, ForestEvents(ts[1..], [])), ts, FixPackages(ts, w.force), []);
    }
  }

  lemma {:induction false} NextPackages(w: Walk, w1: Walk, ts: seq<OwnTree>)
    requires ts != [] && WellFormedForest(ts) && OpenIn(w, ts, [])
    requires SameIn(w.fs, FlatForest(ts, []), ts, []) && SameOutside(w, w1, [] + [ts[0].name])
    ensures OpenIn(w1, ts[1..], []) && SameIn(w1.fs, FlatForest(ts[1..], []), ts[1..], [])
    ensures w1.force == w.force
  {
    hide SameIn;
    forall q: Path | !([] + [ts[0].name] <= q)
      ensures Same(w.fs, w1.fs, q)
    {
      assert Untouched(w, w1, q);
    }
    SameInRest(w.fs, w1.fs, ts, []);
    if |w1.skip| == 1 {
      RegionSplit(ts, [], w1.skip[0]);
    }
  }

  function Start(root: OwnTree, force: bool): Walk {
    Walk(Flat(root, []), map[], map[], [], force)
  }

  /** The walk, with its skipping and its inherited GIDs, leaves the tree `FixUser` describes. */
  lemma {:induction false} WalkFixesUser(root: OwnTree, force: bool)
    requires WellFormed(root)
    ensures Fold(Step, Start(root, force), Events(root, [])).fs == Flat(FixUser(root, force), [])
  {
    var w := Start(root, force);
    if !root.kind.Dir? {
      FoldLeaf(Step, w, root, []);
      assert FixUser(root, force) == root;
    } else {
      FoldDir(Step, w, root, []);
      var w0 := w.(stats := w.stats[[] := root.attr]);
      assert Step(w, Event(Pre, [], root.kind, root.attr)) == w0;
      forall q: Path | Region(root.kids, [], q)
        ensures Same(w.fs, FlatForest(root.kids, []), q)
      {
        assert q != [];
      }
      WalkPackages(w0, root.kids);
      var w2 := Fold(Step, w0, ForestEvents(root.kids, []));
      assert Step(w2, Event(Post, [], root.kind, root.attr)).fs == w2.fs;
      UserDone(w, w0, w2, root);
    }
  }

  lemma {:induction false} UserDone(w: Walk, w0: Walk, w2: Walk, root: OwnTree)
    requires WellFormed(root) && w.fs == Flat(root, []) && w0.fs == w.fs
    requires SameElsewhere(w0, w2, root.kids, [])
    requires SameIn(w2.fs, FlatForest(FixPackages(root.kids, w.force), []), root.kids, [])
    ensures w2.fs == Flat(FixUser(root, w.force), [])
  {
    hide SameIn;
    assert !Region(root.kids, [], []) && Untouched(w0, w2, []);
    forall q: Path | [] < q && !Region(root.kids, [], q)
      ensures Same(w.fs, w2.fs, q)
    {
      assert Untouched(w0, w2, q);
    }
    FixPackagesMatches(root.kids, w.force);
    Assemble(w, w2.fs, root, FixUser(root, w.force), []);
    var m := Flat(FixUser(root, w.force), []);
    forall q: Path
      ensures Same(w2.fs, m, q)
    {
      assert [] <= q;
    }
    assert forall q :: q in w2.fs <==> q in m by {
      forall q: Path
        ensures q in w2.fs <==> q in m
      {
        assert Same(w2.fs, m, q);
      }
    }
    assert forall q :: q in m ==> Same(w2.fs, m, q);
  }

  // ----- which entries change, entry by entry

  function AttrAt(m: OwnMap, q: Path): Own
    requires q in m
  {
    m[q].attr
  }

  /** Every entry from level `from` down to just above `q` is itself one to repair. */
  ghost predicate ReachedFrom(m: OwnMap, expected: int, from: nat, q: Path) {
    forall k {:trigger q[..k]} :: 1 <= from <= k < |q| ==>
      q[..k - 1] in m && q[..k] in m && Wrong(AttrAt(m, q[..k - 1]), expected, AttrAt(m, q[..k]))
  }

  ghost function Outcome(m: OwnMap, expected: int, from: nat, force: bool, q: Path): Entry<Own>
    requires q != [] && q in m && Parent(q) in m
  {
    if (force || ReachedFrom(m, expected, from, q)) && Wrong(AttrAt(m, Parent(q)), expected, m[q].attr)
    then Entry(m[q].kind, Repaired(AttrAt(m, Parent(q)), expected, m[q].kind, m[q].attr))
    else m[q]
  }

  lemma {:induction false} ParentIn(t: OwnTree, p: Path, q: Path)
    requires WellFormed(t) && p < q && q in Flat(t, p)
    ensures Parent(q) in Flat(t, p)
  {
    FlatPrefix(t, p, q, |q| - 1);
  }

  lemma {:induction false} FixAt(m: OwnMap, t: OwnTree, p: Path, expected: int, force: bool, q: Path)
    requires WellFormed(t) && |p| >= 2 && Parent(p) in m && Contains(m, Flat(t, p)) && q in Flat(t, p)
    ensures p <= q && Parent(q) in m
    ensures var f := Flat(Fix(t, AttrAt(m, Parent(p)), expected, force), p);
            q in f && f[q] == Outcome(m, expected, |p|, force, q)
    decreases t, 1
  {
    var above := AttrAt(m, Parent(p));
    FlatUnder(t, p, q);
    if q != p {
      ParentIn(t, p, q);
      FlatForestUnder(t.kids, p, q);
      ContainsKids(m, t, p);
      FixForestAt(m, t.kids, p, Inherit(expected), force, q);
      ReachedStep(m, expected, p, q);
    }
  }

  lemma {:induction false} ReachedStep(m: OwnMap, expected: int, p: Path, q: Path)
    requires |p| >= 2 && p < q && p in m && Parent(p) in m
    ensures ReachedFrom(m, expected, |p|, q) <==>
            Wrong(AttrAt(m, Parent(p)), expected, AttrAt(m, p)) && ReachedFrom(m, expected, |p| + 1, q)
  {
    assert q[..|p|] == p && q[..|p| - 1] == Parent(p);
  }

  lemma {:induction false} FixForestAt(m: OwnMap, ts: seq<OwnTree>, p: Path, rule: Rule, force: bool, q: Path)
    requires WellFormedForest(ts) && |p| >= 1 && p in m && Contains(m, FlatForest(ts, p)) && q in FlatForest(ts, p)
    ensures p < q && q[..|p| + 1] in m && Parent(q) in m
    ensures var expected := ExpectedOf(rule, AttrAt(m, p), q[|p|], AttrAt(m, q[..|p| + 1]));
            var f := FlatForest(FixForest(ts, AttrAt(m, p), rule, force), p);
            q in f && f[q] == Outcome(m, expected, |p| + 1, force, q)
    decreases ts, 0
  {
    var p0, above := p + [ts[0].name], AttrAt(m, p);
    var rs := FixForest(ts, above, rule, force);
    FlatForestSplit(ts, p, q);
    FixForestMatches(ts, above, rule, force);
    assert rs[1..] == FixForest(ts[1..], above, rule, force);
    if p0 <= q {
      assert q[..|p| + 1] == p0 && Parent(p0) == p;
      ContainsParts(m, ts, p);
      assert p0 in Flat(ts[0], p0);
      FixAt(m, ts[0], p0, Expected(rule, above, ts[0]), force, q);
      FlatForestSplit(rs, p, q);
    } else {
      FixForestAt(m, ts[1..], p, rule, force, q);
      FlatForestSplit(rs, p, q);
    }
  }

  /** The GID expected of an entry, from its package directory and its ancestor at level 2. */
  function ExpectedGid(m: OwnMap, q: Path): int
    requires |q| >= 2 && q[..1] in m && q[..2] in m
  {
    ChildGid(AttrAt(m, q[..1]), q[1], AttrAt(m, q[..2]))
  }

  /** What one user's fixup makes of the entry at `q`, said without a walk. */
  ghost predicate Decided(m: OwnMap, f: OwnMap, force: bool, q: Path) {
    && q in m && q in f
    && if |q| < 2 then f[q] == m[q]
       else
         && q[..1] in m && q[..2] in m && Parent(q) in m
         && f[q] == Outcome(m, ExpectedGid(m, q), 2, force, q)
  }

  lemma {:induction false} PackageDecided(m: OwnMap, t: OwnTree, force: bool, q: Path)
    requires WellFormed(t) && Contains(m, Flat(t, [t.name])) && q in Flat(t, [t.name])
    ensures Decided(m, Flat(FixPackage(t, force), [t.name]), force, q)
  {
    hide Outcome, FixForest;
    var p := [t.name];
    FlatUnder(t, p, q);
    assert p in Flat(t, p);
    if q != p {
      ContainsKids(m, t, p);
      FixForestAt(m, t.kids, p, PerChild, force, q);
      assert q[..1] == p;
    }
  }

  lemma {:induction false} PackagesDecided(m: OwnMap, ts: seq<OwnTree>, force: bool, q: Path)
    requires WellFormedForest(ts) && Contains(m, FlatForest(ts, [])) && q in FlatForest(ts, [])
    ensures Decided(m, FlatForest(FixPackages(ts, force), []), force, q)
    decreases |ts|
  {
    hide Outcome, FixPackage, Contains, ExpectedGid;
    var rs := FixPackages(ts, force);
    assert [] + [ts[0].name] == [ts[0].name];
    FlatForestSplit(ts, [], q);
    FixPackagesMatches(ts, force);
    assert rs[1..] == FixPackages(ts[1..], force);
    FlatForestSplit(rs, [], q);
    ContainsParts(m, ts, []);
    if [ts[0].name] <= q {
      PackageDecided(m, ts[0], force, q);
    } else {
      PackagesDecided(m, ts[1..], force, q);
    }
  }

  lemma {:induction false} AllDecided(root: OwnTree, force: bool)
    requires WellFormed(root)
    ensures var m, f := Flat(root, []), Flat(FixUser(root, force), []);
            f.Keys == m.Keys && forall q :: q in m ==> Decided(m, f, force, q)
  {
    var m, f := Flat(root, []), Flat(FixUser(root, force), []);
    ContainsKids(m, root, []);
    forall q | q in m
      ensures Decided(m, f, force, q)
    {
      if q != [] {
        PackagesDecided(m, root.kids, force, q);
      }
    }
    forall q | q in f
      ensures q in m
    {
      if q != [] {
        FixPackagesKeys(root.kids, force, q);
      }
    }
  }

  lemma {:induction false} FixKeys(t: OwnTree, p: Path, above: Own, expected: int, force: bool, q: Path)
    requires q in Flat(Fix(t, above, expected, force), p)
    ensures q in Flat(t, p)
    decreases t, 1
  {
    if q != p && Fix(t, above, expected, force) != t {
      FixForestKeys(t.kids, p, t.attr, Inherit(expected), force, q);
    }
  }

  lemma {:induction false} FixForestKeys(ts: seq<OwnTree>, p: Path, above: Own, rule: Rule, force: bool, q: Path)
    requires q in FlatForest(FixForest(ts, above, rule, force), p)
    ensures q in FlatForest(ts, p)
    decreases ts, 0
  {
    var rs := FixForest(ts, above, rule, force);
    assert rs[1..] == FixForest(ts[1..], above, rule, force);
    if q in FlatForest(rs[1..], p) {
      FixForestKeys(ts[1..], p, above, rule, force, q);
    } else {
      FixKeys(ts[0], p + [ts[0].name], above, Expected(rule, above, ts[0]), force, q);
    }
  }

  lemma {:induction false} FixPackagesKeys(ts: seq<OwnTree>, force: bool, q: Path)
    requires q in FlatForest(FixPackages(ts, force), [])
    ensures q in FlatForest(ts, [])
    decreases |ts|
  {
    var rs, p0 := FixPackages(ts, force), [] + [ts[0].name];
    assert rs[1..] == FixPackages(ts[1..], force);
    if q in FlatForest(rs[1..], []) {
      FixPackagesKeys(ts[1..], force, q);
    } else if q != p0 {
      FixForestKeys(ts[0].kids, p0, ts[0].attr, PerChild, force, q);
    }
  }

  /** The entry at `q` is one whose GID the fixup may change to `gid`. */
  ghost predicate Movable(m: OwnMap, q: Path, gid: int) {
    && q != [] && q in m && Parent(q) in m
    && m[q].attr.gid != gid
    && (m[q].attr.gid == m[Parent(q)].attr.uid || m[q].attr.gid == m[Parent(q)].attr.cacheGid)
  }

  lemma {:induction false} MovableIsWrong(m: OwnMap, expected: int, q: Path, k: int)
    requires 2 <= k < |q|
    ensures Movable(m, q[..k], expected) <==>
            q[..k - 1] in m && q[..k] in m && Wrong(AttrAt(m, q[..k - 1]), expected, AttrAt(m, q[..k]))
  {
    assert Parent(q[..k]) == q[..k - 1];
  }

  lemma {:induction false} ReachedMovable(m: OwnMap, expected: int, q: Path)
    ensures ReachedFrom(m, expected, 2, q) <==> forall k :: 2 <= k < |q| ==> Movable(m, q[..k], expected)
  {
    if ReachedFrom(m, expected, 2, q) {
      forall k | 2 <= k < |q|
        ensures Movable(m, q[..k], expected)
      {
        MovableIsWrong(m, expected, q, k);
      }
    } else {
      var k :| 2 <= k < |q| && !(q[..k - 1] in m && q[..k] in m
                                 && Wrong(AttrAt(m, q[..k - 1]), expected, AttrAt(m, q[..k])));
      MovableIsWrong(m, expected, q, k);
    }
  }

  /**
    What becomes of an entry below a package directory, read off the tree: the
    wanted GID is the owner's cache GID below the cache directories, known by
    name or inode, and the owner's UID elsewhere.
   */
  ghost predicate FixedAs(m: OwnMap, f: OwnMap, force: bool, q: Path) {
    && |q| >= 2 && q in m && q in f && q[..1] in m && q[..2] in m && Parent(q) in m
    && var pkg, top, above, a := m[q[..1]].attr, m[q[..2]].attr, m[Parent(q)].attr, m[q].attr;
       var inCache := q[1] == "cache" || q[1] == "code_cache" || top.ino == pkg.cacheIno || top.ino == pkg.codeIno;
       var gid := if inCache then pkg.cacheGid else pkg.uid;
       if m[q].kind != Other && Movable(m, q, gid) && (force || forall k :: 2 <= k < |q| ==> Movable(m, q[..k], gid))
       then f[q] == Entry(m[q].kind, a.(
              gid := gid, mode := if m[q].kind == Dir && gid == above.cacheGid then 1529 else a.mode))
       else f[q] == m[q]
  }

  lemma {:induction false} DecidedFixed(m: OwnMap, f: OwnMap, force: bool, q: Path)
    requires Decided(m, f, force, q) && |q| >= 2
    ensures FixedAs(m, f, force, q)
  {
    ReachedMovable(m, ExpectedGid(m, q), q);
    hide ReachedFrom;
  }

  /**
    Fixing up adds and removes nothing, never touches a package directory or
    what is above it, and moves a deeper entry to the wanted GID exactly when
    its GID is the app's but another and, without FORCE, the same is true of
    every entry between it and its package directory.
   */
  lemma {:induction false} FixupDecides(root: OwnTree, force: bool)
    requires WellFormed(root)
    ensures var m, f := Flat(root, []), Flat(FixUser(root, force), []);
            && f.Keys == m.Keys
            && forall q :: q in m ==> q in f && if |q| < 2 then f[q] == m[q] else FixedAs(m, f, force, q)
  {
    hide Flat, FixUser, FixedAs;
    AllDecided(root, force);
    var m, f := Flat(root, []), Flat(FixUser(root, force), []);
    forall q | q in m
      ensures q in f && if |q| < 2 then f[q] == m[q] else FixedAs(m, f, force, q)
    {
      assert Decided(m, f, force, q);
      if |q| >= 2 {
        DecidedFixed(m, f, force, q);
      }
    }
  }

  /**
    With FORCE every directory, file and link whose GID is its parent's owner or
    that owner's cache GID ends with the package's cache GID below its cache
    directories and with the package's UID elsewhere.  A directory that moves to
    the cache GID of its parent's owner ends with mode 02771; nothing else moves.
   */
  lemma {:induction false} ForcedFixupReachesAll(root: OwnTree, q: Path)
    requires WellFormed(root) && q in Flat(root, []) && |q| >= 2
    ensures var m, f := Flat(root, []), Flat(FixUser(root, true), []);
            && q in f && q[..1] in m && q[..2] in m && Parent(q) in m
            && var pkg, top, above, a, b := m[q[..1]].attr, m[q[..2]].attr, m[Parent(q)].attr, m[q].attr, f[q].attr;
               var inCache := q[1] == "cache" || q[1] == "code_cache"
                              || top.ino == pkg.cacheIno || top.ino == pkg.codeIno;
               && f[q].kind == m[q].kind
               && (if m[q].kind != Other && (a.gid == above.uid || a.gid == above.cacheGid)
                   then b.gid == if inCache then pkg.cacheGid else pkg.uid
                   else b == a)
               && b.mode == (if m[q].kind == Dir && b.gid != a.gid && b.gid == above.cacheGid then 1529 else a.mode)
               && b == a.(gid := b.gid, mode := b.mode)
  {
    hide Flat, FixUser;
    FixupDecides(root, true);
    assert FixedAs(Flat(root, []), Flat(FixUser(root, true), []), true, q);
  }

  /** One turn of the loop: the entry `e`, unless an entry above it was skipped. */
  method VisitEntry(fs: OwnMap, number: map<Path, int>, stats: map<Path, Own>, skip: seq<Path>, force: bool,
                    e: OwnEvent)
    returns (fs': OwnMap, number': map<Path, int>, stats': map<Path, Own>, skip': seq<Path>)
    ensures Walk(fs', number', stats', skip', force) == Step(Walk(fs, number, stats, skip, force), e)
  {
    fs', number', stats', skip' := fs, number, stats, skip;
    if |skip| == 1 && skip[0] < e.path {
      return;
    }
    if e.info.Pre? {
      stats' := stats[e.path := e.attr];
    }
    if |e.path| >= 2 && Parent(e.path) in stats {
      var above := stats[Parent(e.path)];
      var expected := 0;
      if |e.path| == 2 {
        expected := ChildGid(above, e.path[1], e.attr);
      } else if Parent(e.path) in number {
        expected := number[Parent(e.path)];
      }
      number' := number[e.path := expected];
      if e.attr.gid != expected && (e.attr.gid == above.uid || e.attr.gid == above.cacheGid) {
        if !e.info.Pre? && e.path in fs {
          fs' := fs[e.path := Entry(e.kind, Repaired(above, expected, e.kind, fs[e.path].attr))];
        }
      } else if e.info.Pre? && !force {
        skip' := [e.path];
      }
    }
  }

  /** The loop over fts_read for one user directory. */
  method FixupUser(root: OwnTree, force: bool, events: seq<OwnEvent>) returns (fs: OwnMap)
    requires WellFormed(root) && events == Events(root, [])
    ensures fs == Flat(FixUser(root, force), [])
  {
    hide Step, Flat, FixUser, Events;
    fs := Flat(root, []);
    var number: map<Path, int>, stats: map<Path, Own>, skip: seq<Path> := map[], map[], [];
    var i := 0;
    while i < |events|
      invariant 0 <= i <= |events|
      invariant Walk(fs, number, stats, skip, force) == Fold(Step, Start(root, force), events[..i])
    {
      FoldNext(Step, Start(root, force), events, i);
      fs, number, stats, skip := VisitEntry(fs, number, stats, skip, force, events[i]);
      i := i + 1;
    }
    assert events[..i] == events;
    WalkFixesUser(root, force);
  }
}

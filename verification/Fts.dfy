/**
  A directory walk in the style of fts(3): a finite tree, and the sequence of
  entries `fts_read` hands out for it.  A directory is reported twice, before
  and after everything below it; anything else is reported once.

  An entry is identified by the names on the way from the walk's root down to
  it, so the root is `[]`, `fts_level` is the length of that path and
  `fts_parent` is the path without its last name.
 */
module Fts {

  datatype Kind = Dir | File | Link | Other

  type Path = seq<string>

  datatype Tree<A> = Tree(name: string, kind: Kind, attr: A, kids: seq<Tree<A>>)

  /** Pre is FTS_D, Post is FTS_DP, Leaf is FTS_F, FTS_SL, FTS_SLNONE or FTS_DEFAULT by kind. */
  datatype Info = Pre | Post | Leaf

  datatype Event<A> = Event(info: Info, path: Path, kind: Kind, attr: A)

  function Parent(p: Path): Path
    requires p != []
  {
    p[..|p| - 1]
  }

  /** Only directories have children, and siblings have different names. */
  ghost predicate WellFormed<A>(t: Tree<A>)
    decreases t, 1
  {
    (t.kids != [] ==> t.kind.Dir?) && WellFormedForest(t.kids)
  }

  ghost predicate WellFormedForest<A>(ts: seq<Tree<A>>)
    decreases ts, 0
  {
    ts != [] ==>
      && WellFormed(ts[0])
      && WellFormedForest(ts[1..])
      && (forall k :: 1 <= k < |ts| ==> ts[k].name != ts[0].name)
  }

  function Events<A>(t: Tree<A>, p: Path): seq<Event<A>>
    decreases t, 1
  {
    if t.kind.Dir? then
      [Event(Pre, p, t.kind, t.attr)] + ForestEvents(t.kids, p) + [Event(Post, p, t.kind, t.attr)]
    else
      [Event(Leaf, p, t.kind, t.attr)]
  }

  /** The events of the children `ts` of the entry at `p`. */
  function ForestEvents<A>(ts: seq<Tree<A>>, p: Path): seq<Event<A>>
    decreases ts, 0
  {
    if ts == [] then [] else Events(ts[0], p + [ts[0].name]) + ForestEvents(ts[1..], p)
  }

  /** What a walker's loop computes: `step` applied to each event in turn. */
  function Fold<A, S>(step: (S, Event<A>) -> S, s: S, es: seq<Event<A>>): S
  {
    if es == [] then s else step(Fold(step, s, es[..|es| - 1]), es[|es| - 1])
  }

  lemma {:induction false} FoldConcat<A, S>(step: (S, Event<A>) -> S, s: S, a: seq<Event<A>>, b: seq<Event<A>>)
    ensures Fold(step, s, a + b) == Fold(step, Fold(step, s, a), b)
  {
    if b == [] {
      assert a + b == a;
    } else {
      var b' := b[..|b| - 1];
      assert (a + b)[..|a + b| - 1] == a + b';
      FoldConcat(step, s, a, b');
    }
  }

  lemma {:induction false} FoldNext<A, S>(step: (S, Event<A>) -> S, s: S, es: seq<Event<A>>, i: nat)
    requires i < |es|
    ensures Fold(step, s, es[..i + 1]) == step(Fold(step, s, es[..i]), es[i])
  {
    assert es[..i + 1][..i] == es[..i];
  }

  /** A directory's walk is its first visit, its children's walks and its last visit. */
  lemma FoldDir<A, S>(step: (S, Event<A>) -> S, s: S, t: Tree<A>, p: Path)
    requires t.kind.Dir?
    ensures Fold(step, s, Events(t, p)) ==
            step(Fold(step, step(s, Event(Pre, p, t.kind, t.attr)), ForestEvents(t.kids, p)),
                 Event(Post, p, t.kind, t.attr))
  {
    var pre := [Event(Pre, p, t.kind, t.attr)];
    var post := [Event(Post, p, t.kind, t.attr)];
    var mid := ForestEvents(t.kids, p);
    FoldConcat(step, s, pre + mid, post);
    FoldConcat(step, s, pre, mid);
    FoldOne(step, s, pre[0]);
    FoldOne(step, Fold(step, s, pre + mid), post[0]);
  }

  lemma FoldLeaf<A, S>(step: (S, Event<A>) -> S, s: S, t: Tree<A>, p: Path)
    requires !t.kind.Dir?
    ensures Fold(step, s, Events(t, p)) == step(s, Event(Leaf, p, t.kind, t.attr))
  {
    FoldOne(step, s, Event(Leaf, p, t.kind, t.attr));
  }

  lemma FoldForest<A, S>(step: (S, Event<A>) -> S, s: S, ts: seq<Tree<A>>, p: Path)
    requires ts != []
    ensures Fold(step, s, ForestEvents(ts, p)) ==
            Fold(step, Fold(step, s, Events(ts[0], p + [ts[0].name])), ForestEvents(ts[1..], p))
  {
    FoldConcat(step, s, Events(ts[0], p + [ts[0].name]), ForestEvents(ts[1..], p));
  }

  lemma FoldOne<A, S>(step: (S, Event<A>) -> S, s: S, e: Event<A>)
    ensures Fold(step, s, [e]) == step(s, e)
  {
    assert [e][..0] == [];
  }

  // ----- the entries of a tree as a map from paths

  datatype Entry<A> = Entry(kind: Kind, attr: A)

  function Flat<A>(t: Tree<A>, p: Path): map<Path, Entry<A>>
    decreases t, 1
  {
    FlatForest(t.kids, p)[p := Entry(t.kind, t.attr)]
  }

  function FlatForest<A>(ts: seq<Tree<A>>, p: Path): map<Path, Entry<A>>
    decreases ts, 0
  {
    if ts == [] then map[] else Flat(ts[0], p + [ts[0].name]) + FlatForest(ts[1..], p)
  }

  lemma {:induction false} FlatUnder<A>(t: Tree<A>, p: Path, q: Path)
    requires q in Flat(t, p)
    ensures p <= q
    decreases t, 1
  {
    if q != p {
      FlatForestUnder(t.kids, p, q);
    }
  }

  /** An entry of a forest lies below one of its trees. */
  lemma {:induction false} FlatForestUnder<A>(ts: seq<Tree<A>>, p: Path, q: Path)
    requires q in FlatForest(ts, p)
    ensures p < q && exists k :: 0 <= k < |ts| && ts[k].name == q[|p|]
    decreases ts, 0
  {
    if q in FlatForest(ts[1..], p) {
      FlatForestUnder(ts[1..], p, q);
      var k :| 0 <= k < |ts[1..]| && ts[1..][k].name == q[|p|];
      assert ts[k + 1].name == q[|p|];
    } else {
      FlatUnder(ts[0], p + [ts[0].name], q);
      assert ts[0].name == q[|p|];
    }
  }

  /** In a well-formed forest the first tree and its siblings share no entry. */
  lemma {:induction false} FlatForestSplit<A>(ts: seq<Tree<A>>, p: Path, q: Path)
    requires WellFormedForest(ts) && ts != []
    ensures q in FlatForest(ts, p) && p + [ts[0].name] <= q ==>
              q in Flat(ts[0], p + [ts[0].name]) && q !in FlatForest(ts[1..], p)
    ensures q in FlatForest(ts, p) && !(p + [ts[0].name] <= q) ==>
              q !in Flat(ts[0], p + [ts[0].name]) && q in FlatForest(ts[1..], p)
    ensures q !in FlatForest(ts[1..], p) || q !in Flat(ts[0], p + [ts[0].name])
  {
    if q in FlatForest(ts[1..], p) {
      FlatForestUnder(ts[1..], p, q);
      var k :| 0 <= k < |ts[1..]| && ts[1..][k].name == q[|p|];
      assert ts[k + 1].name == q[|p|];
    }
    if q in Flat(ts[0], p + [ts[0].name]) {
      FlatUnder(ts[0], p + [ts[0].name], q);
    }
  }

  /** Everything above an entry, down from the top of its tree, is a directory of the tree. */
  lemma {:induction false} FlatPrefix<A>(t: Tree<A>, p: Path, q: Path, k: nat)
    requires WellFormed(t) && q in Flat(t, p) && |p| <= k < |q|
    ensures q[..k] in Flat(t, p) && Flat(t, p)[q[..k]].kind.Dir?
    decreases t, 1
  {
    FlatForestUnder(t.kids, p, q);
    if k == |p| {
      assert q[..k] == p && t.kids != [];
    } else {
      FlatForestPrefix(t.kids, p, q, k);
      assert q[..k] != p;
    }
  }

  lemma {:induction false} FlatForestPrefix<A>(ts: seq<Tree<A>>, p: Path, q: Path, k: nat)
    requires WellFormedForest(ts) && q in FlatForest(ts, p) && |p| < k < |q|
    ensures q[..k] in FlatForest(ts, p) && FlatForest(ts, p)[q[..k]].kind.Dir?
    decreases ts, 0
  {
    var p0 := p + [ts[0].name];
    FlatForestSplit(ts, p, q);
    if p0 <= q {
      FlatPrefix(ts[0], p0, q, k);
      FlatForestSplit(ts, p, q[..k]);
    } else {
      FlatForestPrefix(ts[1..], p, q, k);
    }
  }

  // ----- comparing maps of entries

  ghost predicate Same<A>(a: map<Path, Entry<A>>, b: map<Path, Entry<A>>, q: Path) {
    (q in a <==> q in b) && (q in a ==> a[q] == b[q])
  }

  ghost predicate SameUnder<A>(a: map<Path, Entry<A>>, b: map<Path, Entry<A>>, p: Path) {
    forall q: Path :: p <= q ==> Same(a, b, q)
  }

  /** `q` is in one of the trees `ts` below `p`, or would be. */
  ghost predicate Region<A>(ts: seq<Tree<A>>, p: Path, q: Path) {
    p < q && exists k :: 0 <= k < |ts| && ts[k].name == q[|p|]
  }

  ghost predicate SameIn<A>(a: map<Path, Entry<A>>, b: map<Path, Entry<A>>, ts: seq<Tree<A>>, p: Path) {
    forall q: Path :: Region(ts, p, q) ==> Same(a, b, q)
  }

  lemma {:induction false} RegionSplit<A>(ts: seq<Tree<A>>, p: Path, q: Path)
    requires ts != [] && WellFormedForest(ts)
    ensures Region(ts, p, q) <==> p + [ts[0].name] <= q || Region(ts[1..], p, q)
    ensures Region(ts[1..], p, q) ==> !(p + [ts[0].name] <= q)
  {
    if Region(ts[1..], p, q) {
      var k :| 0 <= k < |ts[1..]| && ts[1..][k].name == q[|p|];
      assert ts[k + 1].name == q[|p|];
    }
    if Region(ts, p, q) {
      var k :| 0 <= k < |ts| && ts[k].name == q[|p|];
      assert k > 0 ==> ts[1..][k - 1].name == q[|p|];
    }
    if p + [ts[0].name] <= q {
      assert ts[0].name == q[|p|];
    }
  }

  /** What agrees with a forest agrees with its first tree. */
  lemma {:induction false} SameInFirst<A>(fs: map<Path, Entry<A>>, ts: seq<Tree<A>>, p: Path)
    requires ts != [] && WellFormedForest(ts) && SameIn(fs, FlatForest(ts, p), ts, p)
    ensures SameUnder(fs, Flat(ts[0], p + [ts[0].name]), p + [ts[0].name])
  {
    hide Region;
    var p0 := p + [ts[0].name];
    forall q: Path | p0 <= q
      ensures Same(fs, Flat(ts[0], p0), q)
    {
      RegionSplit(ts, p, q);
      FlatForestSplit(ts, p, q);
    }
  }

  /** Changing only the first tree leaves the agreement with the others. */
  lemma {:induction false} SameInRest<A>(fs: map<Path, Entry<A>>, fs1: map<Path, Entry<A>>, ts: seq<Tree<A>>, p: Path)
    requires ts != [] && WellFormedForest(ts) && SameIn(fs, FlatForest(ts, p), ts, p)
    requires forall q: Path :: !(p + [ts[0].name] <= q) ==> Same(fs, fs1, q)
    ensures SameIn(fs1, FlatForest(ts[1..], p), ts[1..], p)
  {
    hide Region;
    forall q: Path | Region(ts[1..], p, q)
      ensures Same(fs1, FlatForest(ts[1..], p), q)
    {
      RegionSplit(ts, p, q);
      FlatForestSplit(ts, p, q);
      assert Same(fs, FlatForest(ts, p), q) && Same(fs, fs1, q);
    }
  }

  ghost predicate Contains<A>(m: map<Path, Entry<A>>, f: map<Path, Entry<A>>) {
    forall q :: q in f ==> q in m && m[q] == f[q]
  }

  lemma {:induction false} ContainsParts<A>(m: map<Path, Entry<A>>, ts: seq<Tree<A>>, p: Path)
    requires ts != [] && WellFormedForest(ts) && Contains(m, FlatForest(ts, p))
    ensures Contains(m, Flat(ts[0], p + [ts[0].name])) && Contains(m, FlatForest(ts[1..], p))
  {
    var p0 := p + [ts[0].name];
    forall r | r in Flat(ts[0], p0)
      ensures r in m && m[r] == Flat(ts[0], p0)[r]
    {
      FlatForestSplit(ts, p, r);
      assert r in FlatForest(ts, p);
    }
    forall r | r in FlatForest(ts[1..], p)
      ensures r in m && m[r] == FlatForest(ts[1..], p)[r]
    {
      assert r in FlatForest(ts, p);
    }
  }

  lemma {:induction false} ContainsKids<A>(m: map<Path, Entry<A>>, t: Tree<A>, p: Path)
    requires Contains(m, Flat(t, p))
    ensures Contains(m, FlatForest(t.kids, p))
  {
    forall r | r in FlatForest(t.kids, p)
      ensures r in m && m[r] == FlatForest(t.kids, p)[r]
    {
      FlatForestUnder(t.kids, p, r);
      assert r in Flat(t, p) && Flat(t, p)[r] == FlatForest(t.kids, p)[r];
    }
  }
}

/**
  The items of several walks in one sequence, as a tracker keeps them: it walks
  the cache and the code_cache of each of its data paths and sorts everything
  together.
 */
module CacheMix {
  import opened Fts
  import opened CacheLoad
  import opened CacheFacts
  import opened CacheOrder

  /** An item and the number of the walk that found it. */
  datatype Tagged = Tagged(root: nat, it: Item)

  /** The items of walk `r`, in order. */
  function Project(s: seq<Tagged>, r: nat): seq<Item> {
    if s == [] then []
    else
      var last := s[|s| - 1];
      Project(s[..|s| - 1], r) + if last.root == r then [last.it] else []
  }

  ghost predicate MixSorted(s: seq<Tagged>) {
    forall i, j :: 0 <= i < j < |s| ==> KeyLeq(RankOf(s[i].it), RankOf(s[j].it))
  }

  /** Each walk's items, each once, in whatever order. */
  ghost predicate FromWalks(trees: seq<CacheTree>, s: seq<Tagged>) {
    && (forall k :: 0 <= k < |s| ==> s[k].root < |trees|)
    && (forall r: nat :: r < |trees| ==> multiset(Project(s, r)) == multiset(Walked(trees[r])))
  }

  lemma {:induction false} ProjectCount(s: seq<Tagged>, r: nat, it: Item)
    ensures multiset(Project(s, r))[it] == multiset(s)[Tagged(r, it)]
  {
    if s != [] {
      var n := |s| - 1;
      var before, last := Project(s[..n], r), s[n];
      ProjectCount(s[..n], r, it);
      assert s == s[..n] + [last];
      assert multiset(s) == multiset(s[..n]) + multiset{last};
      assert Project(s, r) == if last.root == r then before + [last.it] else before;
      hide Project;
      assert multiset(before + [last.it]) == multiset(before) + multiset{last.it};
    }
  }

  lemma {:induction false} ProjectPermutes(a: seq<Tagged>, b: seq<Tagged>, r: nat)
    requires multiset(a) == multiset(b)
    ensures multiset(Project(a, r)) == multiset(Project(b, r))
  {
    forall it: Item
      ensures multiset(Project(a, r))[it] == multiset(Project(b, r))[it]
    {
      ProjectCount(a, r, it);
      ProjectCount(b, r, it);
    }
  }

  lemma {:induction false} ProjectHas(s: seq<Tagged>, k: nat)
    requires k < |s|
    ensures s[k].it in Project(s, s[k].root)
  {
    assert s[k] in multiset(s);
    ProjectCount(s, s[k].root, s[k].it);
    assert s[k].it in multiset(Project(s, s[k].root));
  }

  lemma {:induction false} ProjectFrom(s: seq<Tagged>, r: nat, it: Item)
    requires it in Project(s, r)
    ensures Tagged(r, it) in s
  {
    assert it in multiset(Project(s, r));
    ProjectCount(s, r, it);
    assert Tagged(r, it) in multiset(s);
  }

  /** Everything below an item comes before it, within each walk. */
  ghost predicate BelowFirst(s: seq<Tagged>) {
    forall i, j :: 0 <= i < j < |s| && s[i].root == s[j].root ==> !(s[i].it.path < s[j].it.path)
  }

  lemma {:induction false} ProjectBelowFirst(s: seq<Tagged>, r: nat, i: nat, j: nat)
    requires BelowFirst(s) && i < j < |Project(s, r)|
    ensures !(Project(s, r)[i].path < Project(s, r)[j].path)
    decreases |s|
  {
    var n := |s| - 1;
    var before := Project(s[..n], r);
    if j < |before| {
      ProjectBelowFirst(s[..n], r, i, j);
    } else {
      var it := before[i];
      assert it in before;
      ProjectFrom(s[..n], r, it);
      var k :| 0 <= k < n && s[..n][k] == Tagged(r, it);
      assert s[k] == Tagged(r, it);
    }
  }

  lemma {:induction false} ProjectPrefix(s: seq<Tagged>, k: nat, r: nat)
    requires k <= |s|
    ensures Project(s[..k], r) <= Project(s, r)
    decreases |s|
  {
    if k == |s| {
      assert s[..k] == s;
    } else {
      var n := |s| - 1;
      assert s[..n][..k] == s[..k];
      ProjectPrefix(s[..n], k, r);
    }
  }

  // ----- all walks, one after another

  function TagAll(items: seq<Item>, r: nat): (s: seq<Tagged>)
    ensures |s| == |items| && forall k :: 0 <= k < |items| ==> s[k] == Tagged(r, items[k])
  {
    seq(|items|, k requires 0 <= k < |items| => Tagged(r, items[k]))
  }

  function AllTags(trees: seq<CacheTree>): seq<Tagged> {
    if trees == [] then []
    else
      var n := |trees| - 1;
      AllTags(trees[..n]) + TagAll(Walked(trees[n]), n)
  }

  lemma {:induction false} AllTagsLast(trees: seq<CacheTree>)
    requires trees != []
    ensures var n := |trees| - 1; AllTags(trees) == AllTags(trees[..n]) + TagAll(Walked(trees[n]), n)
  {
  }

  lemma {:induction false} ProjectConcat(a: seq<Tagged>, b: seq<Tagged>, r: nat)
    ensures Project(a + b, r) == Project(a, r) + Project(b, r)
    decreases |b|
  {
    if b == [] {
      assert a + b == a;
    } else {
      var n := |b| - 1;
      assert (a + b)[..|a + b| - 1] == a + b[..n];
      ProjectConcat(a, b[..n], r);
    }
  }

  lemma {:induction false} ProjectTagAll(items: seq<Item>, r: nat, q: nat)
    ensures Project(TagAll(items, r), q) == if q == r then items else []
    decreases |items|
  {
    if items != [] {
      var n := |items| - 1;
      assert TagAll(items, r)[..n] == TagAll(items[..n], r);
      ProjectTagAll(items[..n], r, q);
      assert items == items[..n] + [items[n]];
    }
  }

  lemma {:induction false} ProjectLastTags(trees: seq<CacheTree>, r: nat)
    requires trees != []
    ensures var n := |trees| - 1;
            Project(AllTags(trees), r) == Project(AllTags(trees[..n]), r) + if r == n then Walked(trees[n]) else []
  {
    var n := |trees| - 1;
    AllTagsLast(trees);
    ProjectConcat(AllTags(trees[..n]), TagAll(Walked(trees[n]), n), r);
    ProjectTagAll(Walked(trees[n]), n, r);
  }

  lemma {:induction false} ProjectAllTags(trees: seq<CacheTree>, r: nat)
    ensures r < |trees| ==> Project(AllTags(trees), r) == Walked(trees[r])
    ensures r >= |trees| ==> Project(AllTags(trees), r) == []
    decreases |trees|
  {
    if trees == [] {
      assert AllTags(trees) == [];
    } else {
      hide Project, Walked, AllTags;
      var n := |trees| - 1;
      ProjectLastTags(trees, r);
      ProjectAllTags(trees[..n], r);
    }
  }

  lemma {:induction false} AllTagsRoots(trees: seq<CacheTree>, k: nat)
    requires k < |AllTags(trees)|
    ensures AllTags(trees)[k].root < |trees|
    decreases |trees|
  {
    hide Walked;
    var n := |trees| - 1;
    if k < |AllTags(trees[..n])| {
      AllTagsRoots(trees[..n], k);
    }
  }

  /** Any rearrangement of all walks holds each walk's items, each once. */
  lemma {:induction false} RearrangedFromWalks(trees: seq<CacheTree>, s: seq<Tagged>)
    requires multiset(s) == multiset(AllTags(trees))
    ensures FromWalks(trees, s)
  {
    forall r: nat | r < |trees|
      ensures multiset(Project(s, r)) == multiset(Walked(trees[r]))
    {
      ProjectPermutes(s, AllTags(trees), r);
      ProjectAllTags(trees, r);
    }
    forall k | 0 <= k < |s|
      ensures s[k].root < |trees|
    {
      assert s[k] in multiset(s);
      var j :| 0 <= j < |AllTags(trees)| && AllTags(trees)[j] == s[k];
      AllTagsRoots(trees, j);
    }
  }

  // ----- popping from the back

  function Reverse(s: seq<Tagged>): seq<Tagged> {
    seq(|s|, i requires 0 <= i < |s| => s[|s| - 1 - i])
  }

  lemma {:induction false} ReverseMultiset(s: seq<Tagged>)
    ensures multiset(Reverse(s)) == multiset(s)
  {
    if s == [] {
      assert Reverse(s) == [];
    } else {
      var n := |s| - 1;
      assert Reverse(s) == [s[n]] + Reverse(s[..n]);
      assert s == s[..n] + [s[n]];
      ReverseMultiset(s[..n]);
    }
  }

  function ItemsOf(s: seq<Tagged>): seq<Item> {
    seq(|s|, i requires 0 <= i < |s| => s[i].it)
  }

  /**
    Popping a sorted vector that mixes the items of several walks from the back
    takes every walk's items, each once, and what is below an item before it.
   */
  lemma {:induction false} PopOrder(trees: seq<CacheTree>, s: seq<Tagged>)
    requires (forall r :: 0 <= r < |trees| ==> WellFormed(trees[r])) && MixSorted(s) && FromWalks(trees, s)
    ensures FromWalks(trees, Reverse(s)) && BelowFirst(Reverse(s))
  {
    var order := Reverse(s);
    ReverseMultiset(s);
    forall r: nat | r < |trees|
      ensures multiset(Project(order, r)) == multiset(Walked(trees[r]))
    {
      ProjectPermutes(order, s, r);
    }
    forall i, j | 0 <= i < j < |order| && order[i].root == order[j].root
      ensures !(order[i].it.path < order[j].it.path)
    {
      var a, b := |s| - 1 - i, |s| - 1 - j;
      assert order[i] == s[a] && order[j] == s[b] && b < a;
      if s[a].it.path < s[b].it.path {
        SortedApart(trees, s, a, b);
      }
    }
  }

  lemma {:induction false} SortedApart(trees: seq<CacheTree>, s: seq<Tagged>, a: nat, b: nat)
    requires (forall r :: 0 <= r < |trees| ==> WellFormed(trees[r])) && MixSorted(s) && FromWalks(trees, s)
    requires a < |s| && b < |s| && s[a].root == s[b].root && s[a].it.path < s[b].it.path
    ensures a < b
  {
    var root := trees[s[a].root];
    ProjectHas(s, a);
    ProjectHas(s, b);
    assert s[a].it in multiset(Walked(root)) && s[b].it in multiset(Walked(root));
    EvictionOrder(root, ItemsOf(s), a, b);
  }
}

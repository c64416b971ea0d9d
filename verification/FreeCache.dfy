/**
  InstalldNativeService::freeCache on tracker objects.  Its loop is proved to
  take exactly the steps of the scheduler's state machine.
 */
module FreeCache {
  import opened CacheItems
  import opened Bounce
  import CacheMix

  function SizeList(items: seq<CacheItem>): seq<int>
    reads items
  {
    if items == [] then [] else SizeList(items[..|items| - 1]) + [items[|items| - 1].size]
  }

  function Value(t: CacheTracker): Tracker
    reads t, t.items
  {
    Tracker(t.cacheUsed, t.cacheQuota, t.itemsLoaded, SizeList(t.items))
  }

  ghost predicate Apart(trackers: seq<CacheTracker>) {
    forall i, j :: 0 <= i < j < |trackers| ==> trackers[i] != trackers[j]
  }

  ghost predicate AllValid(trackers: seq<CacheTracker>)
    reads trackers
  {
    forall i :: 0 <= i < |trackers| ==> trackers[i].Valid()
  }

  ghost function ItemsOf(trackers: seq<CacheTracker>): set<CacheItem>
    reads trackers
  {
    set i, o | 0 <= i < |trackers| && o in trackers[i].items :: o
  }

  /** The state machine's trackers are the tracker objects. */
  ghost predicate Mirrors(trackers: seq<CacheTracker>, ts: seq<Tracker>)
    reads trackers, ItemsOf(trackers)
  {
    |ts| == |trackers| && forall i :: 0 <= i < |trackers| ==>
      assert forall o :: o in trackers[i].items ==> o in ItemsOf(trackers);
      ts[i] == Value(trackers[i])
  }

  /** std::priority_queue::top: some entry with the largest recorded ratio. */
  method Top(queue: map<nat, int>) returns (best: nat)
    requires queue != map[]
    ensures IsTop(queue, best)
  {
    var rest := queue.Keys;
    best :| best in rest;
    while rest != {}
      invariant best in queue && rest <= queue.Keys
      invariant forall j :: j in queue && j !in rest ==> queue[j] <= queue[best]
      decreases rest
    {
      var j :| j in rest;
      if queue[best] < queue[j] {
        best := j;
      }
      rest := rest - {j};
    }
  }

  /** Moving the last item out of a tracker moves the last size out of its list. */
  lemma {:induction false} SizeListLast(items: seq<CacheItem>)
    requires items != []
    ensures |SizeList(items)| == |items|
    ensures SizeList(items)[|items| - 1] == items[|items| - 1].size
    ensures SizeList(items)[..|items| - 1] == SizeList(items[..|items| - 1])
  {
    SizeListLength(items);
    SizeListLength(items[..|items| - 1]);
  }

  lemma {:induction false} SizeListLength(items: seq<CacheItem>)
    ensures |SizeList(items)| == |items|
  {
    if items != [] {
      SizeListLength(items[..|items| - 1]);
    }
  }

  /** The path of the entry loaded at `pos`. */
  ghost function PathAt(t: CacheTracker, pos: nat): string
    reads t
  {
    if pos < |t.loaded| then PathOf(t.roots, t.loaded[pos]) else ""
  }

  /** `path` is that of the entry whose purge was logged as `p`. */
  ghost predicate Logged(trackers: seq<CacheTracker>, p: Purge, path: string)
    reads trackers
  {
    p.who < |trackers| && trackers[p.who].itemsLoaded && path == PathAt(trackers[p.who], p.pos)
  }

  /** Every loaded tracker loaded as many items as the state machine has on its list. */
  ghost predicate Counted(trackers: seq<CacheTracker>, lists: seq<seq<int>>)
    reads trackers
  {
    && |lists| == |trackers|
    && forall i :: 0 <= i < |trackers| && trackers[i].itemsLoaded ==> |trackers[i].loaded| == |lists[i]|
  }

  /** ensureItems on the tracker chosen next, as the state machine's swap. */
  method EnsureChosen(trackers: seq<CacheTracker>, next: nat, ghost ts: seq<Tracker>) returns (ghost found: seq<int>)
    requires Apart(trackers) && AllValid(trackers) && Mirrors(trackers, ts) && next < |trackers|
    modifies trackers[next]
    ensures AllValid(trackers) && Mirrors(trackers, ts[next := Ensured(ts[next], found)])
    ensures trackers[next].itemsLoaded
    ensures old(trackers[next].itemsLoaded) ==> trackers[next].loaded == old(trackers[next].loaded)
    ensures !old(trackers[next].itemsLoaded) ==> |trackers[next].loaded| == |found|
  {
    hide CacheMix.MixSorted, CacheMix.FromWalks, TreesOf, ParentsFirst, Names, Value, Ensured;
    found := EnsureOne(trackers[next]);
    forall i | 0 <= i < |trackers|
      ensures Value(trackers[i]) == ts[next := Ensured(ts[next], found)][i] && trackers[i].Valid()
    {
      assert i != next ==> Value(trackers[i]) == old(Value(trackers[i]));
      assert i != next ==> old(trackers[i].Valid());
    }
  }

  method EnsureOne(t: CacheTracker) returns (ghost found: seq<int>)
    requires t.Valid()
    modifies t
    ensures t.Valid() && t.itemsLoaded && Value(t) == Ensured(old(Value(t)), found)
    ensures old(t.itemsLoaded) ==> t.loaded == old(t.loaded)
    ensures !old(t.itemsLoaded) ==> |t.loaded| == |found|
  {
    hide CacheMix.MixSorted, CacheMix.FromWalks, TreesOf, ParentsFirst, Names, SizeList, Sorted;
    ghost var before := SizeList(t.items);
    ghost var items := t.items;
    t.EnsureItems();
    assert SizeList(items) == before;
    found := SizeList(t.items);
    SizeListLength(t.items);
  }

  /** A tracker after its last item was popped and charged. */
  function Charged(t: Tracker): Tracker
    requires t.items != []
  {
    t.(used := t.used - t.items[|t.items| - 1], items := t.items[..|t.items| - 1])
  }

  /** Pops one tracker's last item and charges its size; `path` is what purging it would remove. */
  method PopLast(t: CacheTracker) returns (size: int, path: string)
    requires t.Valid() && t.items != []
    modifies t
    ensures t.Valid() && old(t.itemsLoaded) && t.itemsLoaded && t.loaded == old(t.loaded)
    ensures |old(Value(t)).items| == |old(t.items)| && size == old(Value(t)).items[|old(t.items)| - 1]
    ensures Value(t) == Charged(old(Value(t))) && path == PathAt(t, |old(t.items)| - 1)
  {
    hide CacheMix.MixSorted, CacheMix.FromWalks, TreesOf, ParentsFirst, Names, PathOf, SizeList;
    SizeListLast(t.items);
    ghost var rest := t.items[..|t.items| - 1];
    ghost var sizes := SizeList(rest);
    var item;
    item, path := t.Evict();
    assert SizeList(rest) == sizes;
    size := item.size;
    t.cacheUsed := t.cacheUsed - size;
    assert SizeList(rest) == sizes;
  }

  /** Pops the last item of the active tracker, purges it and charges its size. */
  method PurgeLast(trackers: seq<CacheTracker>, active: nat, noop: bool, ghost ts: seq<Tracker>)
    returns (size: int, purged: seq<string>)
    requires Apart(trackers) && AllValid(trackers) && Mirrors(trackers, ts) && active < |trackers|
    requires trackers[active].items != []
    modifies trackers[active]
    ensures AllValid(trackers)
    ensures ts[active].items != [] && size == ts[active].items[|ts[active].items| - 1]
    ensures Mirrors(trackers, ts[active := Charged(ts[active])])
    ensures old(trackers[active].itemsLoaded) && trackers[active].itemsLoaded
    ensures trackers[active].loaded == old(trackers[active].loaded)
    ensures purged == if noop then [] else [PathAt(trackers[active], |ts[active].items| - 1)]
  {
    hide CacheMix.MixSorted, CacheMix.FromWalks, TreesOf, ParentsFirst, Names, PathAt, Value, Charged;
    var t := trackers[active];
    var path;
    size, path := PopLast(t);
    purged := if noop then [] else [path];
    forall i | 0 <= i < |trackers|
      ensures Value(trackers[i]) == ts[active := Charged(ts[active])][i] && trackers[i].Valid()
    {
      assert i != active ==> Value(trackers[i]) == old(Value(trackers[i]));
      assert i != active ==> old(trackers[i].Valid());
    }
  }

  ghost function Values(trackers: seq<CacheTracker>): (ts: seq<Tracker>)
    reads trackers, ItemsOf(trackers)
    ensures Mirrors(trackers, ts)
  {
    seq(|trackers|, i requires 0 <= i < |trackers| reads trackers, ItemsOf(trackers) =>
      assert forall o :: o in trackers[i].items ==> o in ItemsOf(trackers);
      Value(trackers[i]))
  }

  ghost function Begin(trackers: seq<CacheTracker>, c: Config, free: int): State
    reads trackers, ItemsOf(trackers)
  {
    var ts := Values(trackers);
    State(ts, -1, map i: nat | i < |ts| :: RatioOf(ts[i]), c.target - free, free,
          seq(|ts|, i => []), [], 0, [], Running)
  }

  ghost function Last(run: seq<State>): State
    requires run != []
  {
    run[|run| - 1]
  }

  lemma {:induction false} Extend(c: Config, run: seq<State>, s: State)
    requires IsRun(c, run) && Next(c, Last(run), s)
    ensures IsRun(c, run + [s]) && Tidy(s)
  {
    RunInv(c, run, |run| - 1);
    NextInv(c, run[0], Last(run), s);
    var r := run + [s];
    forall i | 0 <= i < |r| - 1
      ensures Next(c, r[i], r[i + 1])
    {
      assert i < |run| - 1 ==> Next(c, run[i], run[i + 1]);
    }
  }

  /** The steps that only end the run or drop the active tracker. */
  lemma {:induction false} Steps(c: Config, s: State)
    requires s.outcome == Running
    ensures !Looping(s) ==> Bounce.Next(c, s, s.(outcome := Exhausted))
    ensures Looping(s) && Satisfied(c, s) ==> Bounce.Next(c, s, s.(outcome := UnderQuota))
    ensures Stays(c, s) && s.ts[s.active].items == [] ==> Bounce.Next(c, s, s.(active := -1))
  {
    hide Ratio;
  }

  function RatioNow(t: CacheTracker): int
    reads t
  {
    Ratio(t.cacheUsed, t.cacheQuota)
  }

  lemma {:induction false} ActiveFacts(trackers: seq<CacheTracker>, c: Config, s: State)
    requires Tidy(s) && Mirrors(trackers, s.ts)
    ensures s.active == -1 ==> !Satisfied(c, s)
    ensures s.active != -1 ==>
              && HasActive(s) && s.active < |trackers|
              && (Satisfied(c, s) <==> RatioNow(trackers[s.active]) < FULL && !c.defyQuota)
              && (s.ts[s.active].items == [] <==> trackers[s.active].items == [])
  {
    hide Ratio;
    if s.active != -1 {
      SizeListLength(trackers[s.active].items);
    }
  }

  /** Whether a topmost queued tracker beats the active one. */
  method FindBetter(trackers: seq<CacheTracker>, c: Config, active: int, queue: map<nat, int>, ghost s: State)
    returns (better: bool, top: nat)
    requires AllValid(trackers) && Tidy(s) && Mirrors(trackers, s.ts) && s.active == active && s.queue == queue
    ensures AllValid(trackers) && Mirrors(trackers, s.ts)
    ensures better ==> active != -1 && NextBetter(s, top)
    ensures !better && active != -1 && Looping(s) && !Satisfied(c, s) ==> Stays(c, s)
  {
    hide Ratio;
    better, top := false, 0;
    if active != -1 && queue != map[] {
      top := Top(queue);
      better := RatioNow(trackers[active]) < RatioNow(trackers[top]);
    }
  }

  /** Puts the active tracker back and takes a topmost one instead. */
  method SwapIn(trackers: seq<CacheTracker>, c: Config, active: int, queue: map<nat, int>, ghost top: nat,
                ghost s: State)
    returns (next: nat, queue': map<nat, int>, ghost s': State)
    requires Apart(trackers) && AllValid(trackers) && Mirrors(trackers, s.ts)
    requires Tidy(s) && s.active == active && s.queue == queue && Looping(s) && !Satisfied(c, s)
    requires active == -1 || NextBetter(s, top)
    modifies trackers
    ensures AllValid(trackers) && Mirrors(trackers, s'.ts)
    ensures s'.active == next && s'.queue == queue' && s'.needed == s.needed && s'.outcome == Running
    ensures s'.log == s.log && s'.measured == s.measured
    ensures Bounce.Next(c, s, s')
    ensures forall i :: 0 <= i < |trackers| && old(trackers[i].itemsLoaded) ==>
              trackers[i].itemsLoaded && trackers[i].loaded == old(trackers[i].loaded)
    ensures old(Counted(trackers, s.lists)) ==> Counted(trackers, s'.lists)
  {
    hide Ratio, Mirrors, AllValid, Value, NextBetter;
    next, queue' := PickNext(trackers, active, queue, s);
    ghost var found := EnsureChosen(trackers, next, s.ts);
    s' := Swapped(s, next, found);
    assert Swap(c, s, s', top, next, found);
    forall i | 0 <= i < |trackers| && old(Counted(trackers, s.lists)) && trackers[i].itemsLoaded
      ensures |trackers[i].loaded| == |s'.lists[i]|
    {
      assert i != next ==> trackers[i] != trackers[next];
    }
  }

  /** Pushes the active tracker, if there is one, and pops a topmost one. */
  method PickNext(trackers: seq<CacheTracker>, active: int, queue: map<nat, int>, ghost s: State)
    returns (next: nat, queue': map<nat, int>)
    requires AllValid(trackers) && Mirrors(trackers, s.ts)
    requires Tidy(s) && s.active == active && s.queue == queue && Looping(s)
    ensures AllValid(trackers) && Mirrors(trackers, s.ts)
    ensures IsTop(Requeued(s), next) && next < |s.ts| == |trackers| && queue' == Requeued(s) - {next}
    ensures s.ts[next].loaded == trackers[next].itemsLoaded
  {
    hide Ratio;
    queue' := queue;
    if active != -1 {
      queue' := queue[active := RatioNow(trackers[active])];
    }
    assert queue' == Requeued(s);
    assert active != -1 ==> active in queue';
    next := Top(queue');
    queue' := queue' - {next};
  }

  /** The measurements so far are what the disk reported, call by call. */
  ghost predicate Reported(disk: nat -> int, calls: nat, measured: seq<int>) {
    |measured| == calls && forall k :: 0 <= k < calls ==> measured[k] == disk(k)
  }

  /** Purges one item of the active tracker and, when that should be enough, measures again. */
  method PurgeOne(trackers: seq<CacheTracker>, c: Config, noop: bool, active: nat, needed: int, disk: nat -> int,
                  calls: nat, ghost s: State)
    returns (needed': int, calls': nat, done: bool, purged: seq<string>, ghost s': State)
    requires Apart(trackers) && AllValid(trackers) && Mirrors(trackers, s.ts)
    requires Tidy(s) && s.active == active && s.needed == needed && Stays(c, s) && trackers[active].items != []
    modifies trackers
    ensures AllValid(trackers) && Mirrors(trackers, s'.ts)
    ensures s'.active == s.active && s'.queue == s.queue && s'.needed == needed'
    ensures |s'.log| == |s.log| + 1 && s.log <= s'.log && s'.lists == s.lists
    ensures if noop then purged == [] else |purged| == 1 && Logged(trackers, s'.log[|s.log|], purged[0])
    ensures forall i :: 0 <= i < |trackers| && (old(trackers[i].itemsLoaded) || trackers[i].itemsLoaded) ==>
              old(trackers[i].itemsLoaded) && trackers[i].itemsLoaded && trackers[i].loaded == old(trackers[i].loaded)
    ensures var left := needed - s'.log[|s.log|].size;
            if !c.defyTarget && left <= 0
            then calls' == calls + 1 && needed' == c.target - disk(calls) && (done <==> disk(calls) >= c.target)
            else calls' == calls && needed' == left && !done
    ensures s'.outcome == if done then Freed else Running
    ensures Bounce.Next(c, s, s')
    ensures Reported(disk, calls, s.measured) ==> Reported(disk, calls', s'.measured)
  {
    hide Ratio, Mirrors, AllValid, Value, PathAt;
    var size;
    ActiveFacts(trackers, c, s);
    assert Purged(s).ts == s.ts[active := Charged(s.ts[active])];
    size, purged := PurgeLast(trackers, active, noop, s.ts);
    needed', calls', done := needed - size, calls, false;
    s' := Checked(c, Purged(s), disk(calls));
    assert Pop(c, s, s', disk(calls));
    if !c.defyTarget && needed' <= 0 {
      needed' := c.target - disk(calls);
      calls' := calls + 1;
      done := needed' <= 0;
    }
  }

  lemma {:induction false} LoadedMirrored(trackers: seq<CacheTracker>, ts: seq<Tracker>, i: nat)
    requires Mirrors(trackers, ts) && i < |ts|
    ensures |ts| == |trackers| && ts[i].loaded == trackers[i].itemsLoaded
  {
  }

  /** The variables of the bounce loop. */
  datatype Loop = Loop(active: int, queue: map<nat, int>, needed: int, calls: nat)

  ghost predicate Holds(trackers: seq<CacheTracker>, disk: nat -> int, l: Loop, s: State)
    reads trackers, ItemsOf(trackers)
  {
    && AllValid(trackers) && Mirrors(trackers, s.ts) && Counted(trackers, s.lists)
    && s.active == l.active && s.queue == l.queue && s.needed == l.needed && Reported(disk, l.calls, s.measured)
  }

  /** One turn of the loop; `stop` tells whether it left the loop. */
  method Turn(trackers: seq<CacheTracker>, c: Config, noop: bool, disk: nat -> int, l: Loop, ghost s: State)
    returns (l': Loop, stop: bool, purged: seq<string>, ghost s': State)
    requires Apart(trackers) && Holds(trackers, disk, l, s) && Tidy(s)
    requires Looping(s)
    modifies trackers
    ensures Holds(trackers, disk, l', s')
    ensures Bounce.Next(c, s, s') && (s'.outcome == Running <==> !stop)
    ensures s.log <= s'.log && |s'.log| <= |s.log| + 1
    ensures if noop then purged == []
            else
              && |s'.log| == |s.log| + |purged|
              && forall k :: 0 <= k < |purged| ==> Logged(trackers, s'.log[|s.log| + k], purged[k])
    ensures forall i :: 0 <= i < |trackers| && old(trackers[i].itemsLoaded) ==>
              trackers[i].itemsLoaded && trackers[i].loaded == old(trackers[i].loaded)
  {
    hide Ratio, Bounce.Next, Stays, NextBetter, Tidy, RatioNow, Satisfied, AllValid, Mirrors, Logged, Apart;
    ActiveFacts(trackers, c, s);
    purged, stop, l', s' := [], false, l, s;
    // Only look at trackers under quota when explicitly requested
    if l.active != -1 && RatioNow(trackers[l.active]) < FULL && !c.defyQuota {
      Steps(c, s);
      s', stop := s.(outcome := UnderQuota), true;
      return;
    }
    var better, top := FindBetter(trackers, c, l.active, l.queue, s);
    if l.active == -1 || better {
      var active, queue;
      active, queue, s' := SwapIn(trackers, c, l.active, l.queue, top, s);
      l' := l.(active := active, queue := queue);
    } else if trackers[l.active].items == [] {
      Steps(c, s);
      s' := s.(active := -1);
      l' := l.(active := -1);
    } else {
      var needed, calls;
      needed, calls, stop, purged, s' := PurgeOne(trackers, c, noop, l.active, l.needed, disk, l.calls, s);
      l' := l.(needed := needed, calls := calls);
    }
  }

  method Prepare(trackers: seq<CacheTracker>, c: Config, free: int, ghost disk: nat -> int)
    returns (l: Loop, ghost s: State)
    requires AllValid(trackers) && forall i :: 0 <= i < |trackers| ==> !trackers[i].itemsLoaded
    ensures Holds(trackers, disk, l, s) && Initial(c, s) && s.free == free && Tidy(s)
  {
    hide Ratio;
    var queue := map i: nat | i < |trackers| :: RatioNow(trackers[i]);
    s := Begin(trackers, c, free);
    l := Loop(-1, queue, c.target - free, 0);
    assert queue == s.queue;
    InitialInv(c, s);
  }

  /** What the loop did so far is a run, and its variables are those of the run's last state. */
  ghost predicate Tracks(trackers: seq<CacheTracker>, c: Config, noop: bool, free: int, disk: nat -> int, l: Loop,
                         purged: seq<string>, run: seq<State>)
    reads trackers, ItemsOf(trackers)
  {
    && run != [] && IsRun(c, run) && run[0].free == free
    && Tidy(Last(run)) && Holds(trackers, disk, l, Last(run))
    && PathsOf(trackers, noop, Last(run).log, purged)
  }

  /** What was purged are the paths of the entries logged, in order; nothing with NOOP. */
  ghost predicate PathsOf(trackers: seq<CacheTracker>, noop: bool, log: seq<Purge>, purged: seq<string>)
    reads trackers
  {
    && |purged| == (if noop then 0 else |log|)
    && forall k :: 0 <= k < |purged| ==> Logged(trackers, log[k], purged[k])
  }

  /** One turn of the loop, added to its run; the termination measure goes down unless the loop stops. */
  method Round(trackers: seq<CacheTracker>, c: Config, noop: bool, free: int, disk: nat -> int, l: Loop,
               purged: seq<string>, ghost run: seq<State>)
    returns (l': Loop, stop: bool, purged': seq<string>, ghost run': seq<State>)
    requires Apart(trackers) && Tracks(trackers, c, noop, free, disk, l, purged, run) && Looping(Last(run))
    modifies trackers
    ensures Tracks(trackers, c, noop, free, disk, l', purged', run')
    ensures Last(run').outcome == Running <==> !stop
    ensures !stop ==> Smaller(Last(run'), Last(run))
  {
    hide IsRun, Bounce.Next, Smaller, Tidy, Holds;
    var paths;
    ghost var s;
    ghost var log := Last(run).log;
    l', stop, paths, s := Turn(trackers, c, noop, disk, l, Last(run));
    purged' := purged + paths;
    forall k | 0 <= k < |purged'|
      ensures Logged(trackers, s.log[k], purged'[k])
    {
      if k < |purged| {
        assert old(Logged(trackers, log[k], purged[k])) && s.log[k] == log[k];
      } else {
        assert Logged(trackers, s.log[|log| + (k - |purged|)], paths[k - |purged|]);
      }
    }
    Extend(c, run, s);
    run' := run + [s];
    assert Last(run') == s && run'[0] == run[0];
    if !stop {
      StepsGetSmaller(c, Last(run), s);
    }
  }

  /**
    The loop measured when due and ran until its target was met: before, more was always needed, and
    of its `calls` measurements only the last may meet the target.
   */
  ghost predicate UntilTarget(c: Config, run: seq<State>, disk: nat -> int, calls: nat) {
    && run != []
    && (forall k :: 0 <= k < |run| - 1 ==> MeasuresWhenDue(c, run[k], run[k + 1]))
    && (c.defyTarget ==> calls == 0)
    && (!c.defyTarget && run[0].free < c.target ==>
          && (forall k :: 0 <= k < |run| ==> run[k].outcome == Freed || run[k].needed > 0)
          && (forall k :: 0 <= k < calls - 1 ==> disk(k) < c.target)
          && (Last(run).outcome == Freed <==> calls > 0 && disk(calls - 1) >= c.target))
  }

  lemma {:induction false} LoopStopsAtTarget(c: Config, run: seq<State>, disk: nat -> int, calls: nat)
    requires run != [] && IsRun(c, run) && Reported(disk, calls, Last(run).measured)
    ensures UntilTarget(c, run, disk, calls)
  {
    hide IsRun, MeasuresWhenDue;
    forall k | 0 <= k < |run| - 1
      ensures MeasuresWhenDue(c, run[k], run[k + 1])
    {
      MeasuresExactly(c, run, k);
    }
    if c.defyTarget {
      DefyingTargetNeverMeasures(c, run, |run| - 1);
    } else if run[0].free < c.target {
      forall k | 0 <= k < |run|
        ensures run[k].outcome == Freed || run[k].needed > 0
      {
        StopsAtTarget(c, run, k);
      }
      StopsAtTarget(c, run, |run| - 1);
    }
  }

  lemma {:induction false} RunExhausted(c: Config, run: seq<State>)
    requires run != [] && IsRun(c, run) && Last(run).outcome == Running && !Looping(Last(run))
    ensures IsRun(c, run + [Last(run).(outcome := Exhausted)])
  {
    Steps(c, Last(run));
    Extend(c, run, Last(run).(outcome := Exhausted));
  }

  /** Turns of the loop until it stops or nothing is left to look at. */
  method Rounds(trackers: seq<CacheTracker>, c: Config, noop: bool, free: int, disk: nat -> int, first: Loop,
                ghost begun: seq<State>)
    returns (l: Loop, stop: bool, purged: seq<string>, ghost run: seq<State>)
    requires Apart(trackers) && Tracks(trackers, c, noop, free, disk, first, [], begun)
    requires Last(begun).outcome == Running
    modifies trackers
    ensures Tracks(trackers, c, noop, free, disk, l, purged, run)
    ensures (Last(run).outcome == Running <==> !stop) && (!stop ==> !Looping(Last(run)))
  {
    hide IsRun, Unloaded, Left, Live, Restless, Tidy, Mirrors, AllValid, Apart, PathsOf, Counted, Reported;
    l, stop, purged, run := first, false, [], begun;
    while !stop && (l.active != -1 || l.queue != map[])
      invariant Tracks(trackers, c, noop, free, disk, l, purged, run) && (Last(run).outcome == Running <==> !stop)
      decreases !stop, Unloaded(Last(run).ts), Left(Last(run).ts), Live(Last(run)), Restless(Last(run))
    {
      l, stop, purged, run := Round(trackers, c, noop, free, disk, l, purged, run);
    }
  }

  /**
    The bounce loop.  `disk` is what each successive measurement of the free
    space reports.  The loop ends, and what it did is a run of the scheduler.
   */
  method BounceLoop(trackers: seq<CacheTracker>, c: Config, noop: bool, free: int, disk: nat -> int)
    returns (purged: seq<string>, calls: nat, ghost run: seq<State>)
    requires Apart(trackers) && AllValid(trackers)
    requires forall i :: 0 <= i < |trackers| ==> !trackers[i].itemsLoaded
    modifies trackers
    ensures run != [] && IsRun(c, run) && Last(run).outcome != Running && run[0].free == free
    ensures AllValid(trackers) && Mirrors(trackers, Last(run).ts) && Counted(trackers, Last(run).lists)
    ensures PathsOf(trackers, noop, Last(run).log, purged) && Reported(disk, calls, Last(run).measured)
    ensures UntilTarget(c, run, disk, calls)
  {
    ghost var s;
    var l, stop;
    l, s := Prepare(trackers, c, free, disk);
    assert IsRun(c, [s]) && s.outcome == Running && PathsOf(trackers, noop, s.log, []);
    hide IsRun, Tidy, Initial, Mirrors, AllValid, Apart, PathsOf, Counted, Reported, UntilTarget;
    l, stop, purged, run := Rounds(trackers, c, noop, free, disk, l, [s]);
    calls := l.calls;
    if !stop {
      RunExhausted(c, run);
      run := run + [Last(run).(outcome := Exhausted)];
    }
    LoopStopsAtTarget(c, run, disk, calls);
  }

  datatype Status = Ok | Unreadable | Unsupported | NotFreed

  /** What the disk reports after the first measurement. */
  function Later(disk: nat -> int): nat -> int {
    (k: nat) => disk(k + 1)
  }

  /**
    The whole call, after its trackers were created.  `disk` is what the
    measurements report, the first before the loop and the last after it;
    `last` is the number of the one the answer rests on.
   */
  method Call(trackers: seq<CacheTracker>, c: Config, noop: bool, v2: bool, disk: nat -> int)
    returns (status: Status, last: nat, purged: seq<string>, ghost run: seq<State>)
    requires Apart(trackers) && AllValid(trackers)
    requires forall i :: 0 <= i < |trackers| ==> !trackers[i].itemsLoaded
    modifies trackers
    ensures run == [] <==> disk(0) < 0 || (!c.defyTarget && disk(0) >= c.target) || !v2
    ensures run == [] ==> unchanged(trackers) && purged == []
    ensures run != [] ==>
              && IsRun(c, run) && Last(run).outcome != Running && run[0].free == disk(0)
              && AllValid(trackers) && Mirrors(trackers, Last(run).ts) && Counted(trackers, Last(run).lists)
              && PathsOf(trackers, noop, Last(run).log, purged)
              && Reported(Later(disk), |Last(run).measured|, Last(run).measured)
              && UntilTarget(c, run, Later(disk), |Last(run).measured|)
    ensures last == if run == [] || c.defyTarget then 0 else |Last(run).measured| + 1
    ensures status == if disk(0) < 0 then Unreadable
                      else if !c.defyTarget && disk(0) >= c.target then Ok
                      else if !v2 then Unsupported
                      else if c.defyTarget || disk(last) >= c.target then Ok else NotFreed
  {
    hide Ratio, IsRun, Mirrors, AllValid, Counted, PathsOf, UntilTarget;
    run, last, purged := [], 0, [];
    var free := disk(0);
    if free < 0 {
      return Unreadable, last, purged, run;
    }
    if !c.defyTarget && free >= c.target {
      return Ok, last, purged, run;
    }
    if !v2 {
      return Unsupported, last, purged, run;
    }
    var calls;
    purged, calls, run := BounceLoop(trackers, c, noop, free, Later(disk));
    if !c.defyTarget {
      last := calls + 1;
      status := if disk(last) >= c.target then Ok else NotFreed;
    } else {
      status := Ok;
    }
  }
}

/**
  The eviction scheduler of InstalldNativeService::freeCache as a state
  machine on values: one tracker per UID, a priority queue of trackers ordered
  by the ratio each had when it was pushed, and at most one active tracker.

  What the library and the disk decide is left open: which of several topmost
  trackers the queue yields, what a tracker finds when it loads its items, and
  what each new measurement of the free space says.
 */
module Bounce {
  import opened Division

  /** Division as C++ does it, truncating toward zero. */
  function TruncDiv(a: int, b: int): int
    requires b != 0
  {
    var q := (if a < 0 then -a else a) / (if b < 0 then -b else b);
    if (a < 0) == (b < 0) then q else -q
  }

  /** CacheTracker::getCacheRatio. */
  function Ratio(used: int, quota: int): int {
    if quota == 0 then 0 else TruncDiv(used * 10000, quota)
  }

  const FULL := 10000

  /** For a positive quota the truncated test is exactly "at or over quota". */
  lemma RatioIsOverQuota(used: int, quota: int)
    requires quota > 0
    ensures Ratio(used, quota) >= FULL <==> used >= quota
  {
    var n := used * 10000;
    if used >= quota {
      assert n >= 10000 * quota;
      assert n / quota >= 10000 by { DivAtLeast(n, 10000, quota); }
    } else if used >= 0 {
      assert n < 10000 * quota;
      assert n / quota < 10000 by { DivBelow(n, 10000, quota); }
    } else {
      assert (-n) / quota >= 0 by { DivAtLeast(-n, 0, quota); }
    }
  }

  /** The ratio is used / quota in units of 1/10000, rounded toward zero, and 0 without a quota. */
  lemma {:induction false} RatioRounds(used: int, quota: int)
    ensures quota == 0 ==> Ratio(used, quota) == 0
    ensures quota > 0 && used >= 0 ==>
              Ratio(used, quota) * quota <= 10000 * used < (Ratio(used, quota) + 1) * quota
    ensures quota > 0 && used < 0 ==>
              (Ratio(used, quota) - 1) * quota < 10000 * used <= Ratio(used, quota) * quota
    ensures quota < 0 ==> Ratio(used, quota) == Ratio(-used, -quota)
  {
    if quota > 0 && used >= 0 {
      DivBounds(used * 10000, quota);
    } else if quota > 0 {
      NegativeRatio(used, quota);
    }
  }

  lemma {:induction false} NegativeRatio(used: int, quota: int)
    requires quota > 0 && used < 0
    ensures (Ratio(used, quota) - 1) * quota < 10000 * used <= Ratio(used, quota) * quota
  {
    var n := -(used * 10000);
    var q := n / quota;
    DivBounds(n, quota);
    assert Ratio(used, quota) == -q;
    hide Ratio;
    assert -q * quota == -(q * quota) && (-q - 1) * quota == -((q + 1) * quota);
  }

  /** Ratios in order put the usages in order, up to the last unit. */
  lemma {:induction false} RatioOrders(used: int, quota: int, used': int, quota': int)
    requires quota > 0 && quota' > 0 && used >= 0 && Ratio(used', quota') <= Ratio(used, quota)
    ensures 10000 * used' * quota < (10000 * used + quota) * quota'
  {
    hide Ratio;
    RatioRounds(used, quota);
    RatioRounds(used', quota');
    var r, r' := Ratio(used, quota), Ratio(used', quota');
    assert 10000 * used' < (r' + 1) * quota';
    MulBelow(quota, 10000 * used', (r' + 1) * quota');
    assert (r' + 1) * quota' * quota <= (r + 1) * quota * quota' by {
      MulAtMost(quota' * quota, r' + 1, r + 1);
    }
    assert (r + 1) * quota <= 10000 * used + quota;
    MulAtMost(quota', (r + 1) * quota, 10000 * used + quota);
  }

  // ----- the machine

  /** `items` are the sizes still to evict; the last one goes first. */
  datatype Tracker = Tracker(used: int, quota: int, loaded: bool, items: seq<int>)

  function RatioOf(t: Tracker): int {
    Ratio(t.used, t.quota)
  }

  /** Item number `pos` of tracker `who` was purged, when its cacheUsed was `before`. */
  datatype Purge = Purge(who: nat, pos: nat, size: int, before: int)

  datatype Outcome = Running | UnderQuota | Freed | Exhausted

  datatype Config = Config(target: int, defyTarget: bool, defyQuota: bool)

  /**
    `queue` gives each queued tracker's ratio at the time it was pushed.
    `lists` remembers what every tracker loaded, `log` what was purged, and
    `mark` how much of the log is older than the last measurement; `measured`
    is what the measurements in the loop reported.
   */
  datatype State = State(ts: seq<Tracker>, active: int, queue: map<nat, int>, needed: int, free: int,
                         lists: seq<seq<int>>, log: seq<Purge>, mark: nat, measured: seq<int>, outcome: Outcome)

  ghost predicate Initial(c: Config, s: State) {
    && (forall i :: 0 <= i < |s.ts| ==> !s.ts[i].loaded && s.ts[i].items == [])
    && s.active == -1
    && s.queue == (map i: nat | i < |s.ts| :: RatioOf(s.ts[i]))
    && s.needed == c.target - s.free
    && |s.lists| == |s.ts| && (forall i :: 0 <= i < |s.ts| ==> s.lists[i] == [])
    && s.log == [] && s.mark == 0 && s.measured == [] && s.outcome == Running
  }

  ghost predicate IsTop(queue: map<nat, int>, i: nat) {
    i in queue && forall j :: j in queue ==> queue[j] <= queue[i]
  }

  predicate HasActive(s: State) {
    0 <= s.active < |s.ts|
  }

  predicate InRange(s: State) {
    && (s.active == -1 || HasActive(s))
    && |s.lists| == |s.ts|
    && (forall i :: i in s.queue ==> i < |s.ts|)
  }

  /** The active tracker is below its quota and quotas are respected. */
  predicate Satisfied(c: Config, s: State) {
    HasActive(s) && RatioOf(s.ts[s.active]) < FULL && !c.defyQuota
  }

  /** A topmost queued tracker beats the active one. */
  ghost predicate NextBetter(s: State, top: nat)
    requires InRange(s)
  {
    HasActive(s) && IsTop(s.queue, top) && RatioOf(s.ts[s.active]) < RatioOf(s.ts[top])
  }

  predicate Looping(s: State) {
    s.outcome == Running && (s.active != -1 || s.queue != map[])
  }

  ghost predicate Finish(c: Config, s: State, s': State) {
    s.outcome == Running && !Looping(s) && s' == s.(outcome := Exhausted)
  }

  ghost predicate Bail(c: Config, s: State, s': State) {
    Looping(s) && Satisfied(c, s) && s' == s.(outcome := UnderQuota)
  }

  function Requeued(s: State): map<nat, int>
    requires InRange(s)
  {
    if HasActive(s) then s.queue[s.active := RatioOf(s.ts[s.active])] else s.queue
  }

  /** The active tracker after ensureItems found `found`. */
  function Ensured(t: Tracker, found: seq<int>): Tracker {
    if t.loaded then t else t.(loaded := true, items := found)
  }

  function Swapped(s: State, next: nat, found: seq<int>): State
    requires InRange(s) && next < |s.ts|
  {
    s.(active := next,
       queue := Requeued(s) - {next},
       ts := s.ts[next := Ensured(s.ts[next], found)],
       lists := if s.ts[next].loaded then s.lists else s.lists[next := found])
  }

  ghost predicate Swap(c: Config, s: State, s': State, top: nat, next: nat, found: seq<int>) {
    && Looping(s) && InRange(s) && !Satisfied(c, s)
    && (s.active == -1 || NextBetter(s, top))
    && IsTop(Requeued(s), next) && next < |s.ts|
    && s' == Swapped(s, next, found)
  }

  ghost predicate Stays(c: Config, s: State) {
    && Looping(s) && InRange(s) && !Satisfied(c, s) && HasActive(s)
    && (s.queue == map[] || exists top :: IsTop(s.queue, top) && !NextBetter(s, top))
  }

  ghost predicate Drop(c: Config, s: State, s': State) {
    Stays(c, s) && s.ts[s.active].items == [] && s' == s.(active := -1)
  }

  function Purged(s: State): State
    requires HasActive(s) && s.ts[s.active].items != []
  {
    var t := s.ts[s.active];
    var n := |t.items| - 1;
    s.(ts := s.ts[s.active := t.(used := t.used - t.items[n], items := t.items[..n])],
       needed := s.needed - t.items[n],
       log := s.log + [Purge(s.active, n, t.items[n], t.used)])
  }

  /** The check after a purge, should the disk now report `free` bytes. */
  function Checked(c: Config, s: State, free: int): State {
    if c.defyTarget || s.needed > 0 then s
    else
      s.(free := free, needed := c.target - free, mark := |s.log|, measured := s.measured + [free],
         outcome := if c.target - free <= 0 then Freed else Running)
  }

  ghost predicate Pop(c: Config, s: State, s': State, free: int) {
    Stays(c, s) && s.ts[s.active].items != [] && s' == Checked(c, Purged(s), free)
  }

  ghost predicate Next(c: Config, s: State, s': State) {
    || Finish(c, s, s')
    || Bail(c, s, s')
    || (exists top, next, found :: Swap(c, s, s', top, next, found))
    || Drop(c, s, s')
    || (exists free :: Pop(c, s, s', free))
  }

  ghost predicate IsRun(c: Config, run: seq<State>) {
    && run != [] && Initial(c, run[0])
    && forall i :: 0 <= i < |run| - 1 ==> Next(c, run[i], run[i + 1])
  }

  // ----- what every step keeps

  /** Queued trackers still have the ratio they were pushed with, and trackers that left are empty. */
  ghost predicate Tidy(s: State) {
    && InRange(s)
    && s.active !in s.queue
    && (forall i :: i in s.queue ==> s.queue[i] == RatioOf(s.ts[i]))
    && (forall i: nat :: i < |s.ts| && i != s.active && i !in s.queue ==> s.ts[i].loaded && s.ts[i].items == [])
    && (HasActive(s) ==> s.ts[s.active].loaded)
  }

  function TakenFrom(log: seq<Purge>, who: int): int {
    if log == [] then 0
    else
      var p := log[|log| - 1];
      TakenFrom(log[..|log| - 1], who) + if p.who == who then p.size else 0
  }

  function Sizes(log: seq<Purge>): int {
    if log == [] then 0 else Sizes(log[..|log| - 1]) + log[|log| - 1].size
  }

  /** cacheUsed and needed account for every purge. */
  ghost predicate Balanced(c: Config, s0: State, s: State) {
    && |s.ts| == |s0.ts|
    && (forall i :: 0 <= i < |s.ts| ==>
          s.ts[i].quota == s0.ts[i].quota && s.ts[i].used == s0.ts[i].used - TakenFrom(s.log, i))
    && s.mark <= |s.log|
    && s.needed == c.target - s.free - Sizes(s.log[s.mark..])
    && s.free == if s.measured == [] then s0.free else s.measured[|s.measured| - 1]
  }

  /** The positions purged from `who`, in the order they were purged. */
  function Positions(log: seq<Purge>, who: int): seq<nat> {
    if log == [] then []
    else
      var p := log[|log| - 1];
      Positions(log[..|log| - 1], who) + if p.who == who then [p.pos] else []
  }

  function Downward(hi: nat, lo: nat): seq<nat>
    requires lo <= hi
  {
    seq(hi - lo, k requires 0 <= k < hi - lo => hi - 1 - k)
  }

  /** What was purged from a tracker and what it has left make up what it loaded. */
  ghost predicate Listed(s: State) {
    && InRange(s)
    && (forall i :: 0 <= i < |s.ts| ==>
          && s.ts[i].items <= s.lists[i]
          && (!s.ts[i].loaded ==> s.lists[i] == [])
          && Positions(s.log, i) == Downward(|s.lists[i]|, |s.ts[i].items|))
    && (forall k :: 0 <= k < |s.log| ==>
          && s.log[k].who < |s.ts| && s.log[k].pos < |s.lists[s.log[k].who]|
          && s.log[k].size == s.lists[s.log[k].who][s.log[k].pos])
  }

  /**
    Without DEFY_QUOTA every purge started at or over quota, only the active
    tracker can be below after a purge, and only trackers that began over
    quota are purged.
   */
  ghost predicate Fair(c: Config, s0: State, s: State) {
    !c.defyQuota && |s.ts| == |s0.ts| ==>
      && (forall k :: 0 <= k < |s.log| && s.log[k].who < |s.ts| ==>
            Ratio(s.log[k].before, s.ts[s.log[k].who].quota) >= FULL)
      && (forall i: nat :: i < |s.ts| && i != s.active && Positions(s.log, i) != [] ==> RatioOf(s.ts[i]) >= FULL)
      && (forall i: nat :: i < |s.ts| && Positions(s.log, i) != [] ==> RatioOf(s0.ts[i]) >= FULL)
  }

  /** The index of the last purge from `who`, or -1. */
  function LastPurge(log: seq<Purge>, who: int): (k: int)
    ensures -1 <= k < |log| && (k >= 0 ==> log[k].who == who)
  {
    if log == [] then -1
    else if log[|log| - 1].who == who then |log| - 1
    else LastPurge(log[..|log| - 1], who)
  }

  /** A purged tracker stands where its last purge left it. */
  ghost predicate Settled(s: State) {
    forall i :: 0 <= i < |s.ts| && LastPurge(s.log, i) >= 0 ==>
      s.ts[i].used == s.log[LastPurge(s.log, i)].before - s.log[LastPurge(s.log, i)].size
  }

  /** The loop reports the target met only on a measurement that says so. */
  ghost predicate Honest(c: Config, s: State) {
    && (s.outcome == Freed ==> s.free >= c.target && s.mark == |s.log| && s.measured != [] && !c.defyTarget)
    && (s.outcome == Exhausted ==> s.active == -1 && s.queue == map[])
    && (s.outcome == UnderQuota ==> Satisfied(c, s))
  }

  ghost predicate Inv(c: Config, s0: State, s: State) {
    Tidy(s) && Balanced(c, s0, s) && Listed(s) && Fair(c, s0, s) && Settled(s) && Honest(c, s)
  }

  lemma {:induction false} InitialInv(c: Config, s: State)
    requires Initial(c, s)
    ensures Inv(c, s, s)
  {
  }

  lemma {:induction false} SwapTidy(c: Config, s: State, s': State, top: nat, next: nat, found: seq<int>)
    requires Tidy(s) && Swap(c, s, s', top, next, found)
    ensures Tidy(s')
  {
    hide Ratio;
    assert s'.queue.Keys == Requeued(s).Keys - {next};
    assert HasActive(s) ==> top in Requeued(s) && Requeued(s)[top] == s.queue[top];
    assert next != s.active;
  }

  lemma {:induction false} PopTidy(c: Config, s: State, s': State, free: int)
    requires Tidy(s) && Pop(c, s, s', free)
    ensures Tidy(s')
  {
    hide Ratio;
  }

  lemma {:induction false} LogGrows(log: seq<Purge>, p: Purge, who: int)
    ensures TakenFrom(log + [p], who) == TakenFrom(log, who) + (if p.who == who then p.size else 0)
    ensures Positions(log + [p], who) == Positions(log, who) + (if p.who == who then [p.pos] else [])
    ensures LastPurge(log + [p], who) == if p.who == who then |log| else LastPurge(log, who)
    ensures Sizes(log + [p]) == Sizes(log) + p.size
  {
    assert (log + [p])[..|log|] == log;
  }

  lemma {:induction false} PurgedUsed(s0: State, s: State, i: nat)
    requires HasActive(s) && s.ts[s.active].items != [] && |s.ts| == |s0.ts| && i < |s.ts|
    requires s.ts[i].used == s0.ts[i].used - TakenFrom(s.log, i)
    ensures Purged(s).ts[i].used == s0.ts[i].used - TakenFrom(Purged(s).log, i)
    ensures Purged(s).ts[i].quota == s.ts[i].quota
  {
    LogGrows(s.log, Purged(s).log[|s.log|], i);
  }

  lemma {:induction false} PurgedBalanced(c: Config, s0: State, s: State)
    requires Balanced(c, s0, s) && HasActive(s) && s.ts[s.active].items != []
    ensures Balanced(c, s0, Purged(s))
  {
    hide TakenFrom, Positions, LastPurge, Sizes;
    var v := Purged(s);
    var p := v.log[|s.log|];
    assert v.log[s.mark..] == s.log[s.mark..] + [p];
    LogGrows(s.log[s.mark..], p, 0);
    assert v.needed == c.target - v.free - Sizes(v.log[v.mark..]);
    hide Purged;
    forall i | 0 <= i < |s.ts|
      ensures v.ts[i].quota == s0.ts[i].quota && v.ts[i].used == s0.ts[i].used - TakenFrom(v.log, i)
    {
      PurgedUsed(s0, s, i);
    }
  }

  lemma {:induction false} CheckedBalanced(c: Config, s0: State, s: State, free: int)
    requires Balanced(c, s0, s)
    ensures Balanced(c, s0, Checked(c, s, free))
  {
    assert s.log[|s.log|..] == [];
  }

  lemma {:induction false} PopListed(c: Config, s: State, s': State, free: int)
    requires Tidy(s) && Listed(s) && Pop(c, s, s', free)
    ensures Listed(s')
  {
    hide Ratio, TakenFrom, Positions, LastPurge, Sizes;
    var v := Purged(s);
    var p := v.log[|s.log|];
    forall i | 0 <= i < |s.ts|
      ensures v.ts[i].items <= v.lists[i] && (!v.ts[i].loaded ==> v.lists[i] == [])
      ensures Positions(v.log, i) == Downward(|v.lists[i]|, |v.ts[i].items|)
    {
      LogGrows(s.log, p, i);
    }
  }

  lemma {:induction false} PopFair(c: Config, s0: State, s: State, s': State, free: int)
    requires Tidy(s) && Balanced(c, s0, s) && Listed(s) && Fair(c, s0, s) && Pop(c, s, s', free)
    ensures Fair(c, s0, s')
  {
    hide Ratio, TakenFrom, Positions, LastPurge, Sizes;
    var v := Purged(s);
    var p := v.log[|s.log|];
    forall i | 0 <= i < |s.ts|
      ensures i != s.active ==> Positions(v.log, i) == Positions(s.log, i) && v.ts[i] == s.ts[i]
    {
      LogGrows(s.log, p, i);
    }
    Untouched(s.log, s.active);
  }

  lemma {:induction false} PopSettled(c: Config, s: State, s': State, free: int)
    requires Tidy(s) && Settled(s) && Pop(c, s, s', free)
    ensures Settled(s')
  {
    hide Ratio, TakenFrom, Positions, LastPurge, Sizes;
    var v := Purged(s);
    var p := v.log[|s.log|];
    forall i | 0 <= i < |s.ts|
      ensures LastPurge(v.log, i) >= 0 ==>
                v.ts[i].used == v.log[LastPurge(v.log, i)].before - v.log[LastPurge(v.log, i)].size
    {
      LogGrows(s.log, p, i);
    }
  }

  lemma {:induction false} Untouched(log: seq<Purge>, who: int)
    ensures Positions(log, who) == [] ==> TakenFrom(log, who) == 0
  {
    if log != [] {
      Untouched(log[..|log| - 1], who);
    }
  }

  lemma {:induction false} SwapListed(c: Config, s: State, s': State, top: nat, next: nat, found: seq<int>)
    requires Listed(s) && Swap(c, s, s', top, next, found)
    ensures Listed(s')
  {
    hide Ratio;
    assert Downward(|found|, |found|) == [];
    assert !s.ts[next].loaded ==> Positions(s.log, next) == [];
    assert s'.queue.Keys == Requeued(s).Keys - {next};
  }

  lemma {:induction false} SwapFair(c: Config, s0: State, s: State, s': State, top: nat, next: nat, found: seq<int>)
    requires Fair(c, s0, s) && Settled(s) && Swap(c, s, s', top, next, found)
    ensures Fair(c, s0, s') && Settled(s')
  {
    hide Ratio;
  }

  lemma {:induction false} SwapBalanced(c: Config, s0: State, s: State, s': State, top: nat, next: nat, found: seq<int>)
    requires Balanced(c, s0, s) && Swap(c, s, s', top, next, found)
    ensures Balanced(c, s0, s')
  {
    hide Ratio, NextBetter, IsTop;
  }

  /** Every step keeps the queue order valid, the books balanced and the quotas respected. */
  lemma {:induction false} NextInv(c: Config, s0: State, s: State, s': State)
    requires Inv(c, s0, s) && Next(c, s, s')
    ensures Inv(c, s0, s')
  {
    hide Ratio;
    hide Tidy, Balanced, Listed, Fair, Settled;
    NextHonest(c, s, s');
    hide Honest, Checked, Purged, Swapped;
    if top: nat, next: nat, found: seq<int> :| Swap(c, s, s', top, next, found) {
      SwapTidy(c, s, s', top, next, found);
      SwapBalanced(c, s0, s, s', top, next, found);
      SwapListed(c, s, s', top, next, found);
      SwapFair(c, s0, s, s', top, next, found);
    } else if free :| Pop(c, s, s', free) {
      PopTidy(c, s, s', free);
      PurgedBalanced(c, s0, s);
      CheckedBalanced(c, s0, Purged(s), free);
      PopListed(c, s, s', free);
      PopFair(c, s0, s, s', free);
      PopSettled(c, s, s', free);
    } else if Drop(c, s, s') {
      DropInv(c, s0, s, s');
    } else {
      EndInv(c, s0, s, s');
    }
  }

  lemma {:induction false} DropInv(c: Config, s0: State, s: State, s': State)
    requires Inv(c, s0, s) && Drop(c, s, s')
    ensures Inv(c, s0, s')
  {
    hide Ratio, NextBetter, IsTop, Positions, TakenFrom, Sizes, LastPurge, Downward;
  }

  lemma {:induction false} EndInv(c: Config, s0: State, s: State, s': State)
    requires Inv(c, s0, s) && (Finish(c, s, s') || Bail(c, s, s'))
    ensures Inv(c, s0, s')
  {
    hide Ratio, Positions, TakenFrom, Sizes, LastPurge, Downward;
  }

  lemma {:induction false} NextHonest(c: Config, s: State, s': State)
    requires Next(c, s, s')
    ensures Honest(c, s')
  {
    hide Ratio, NextBetter, IsTop;
  }

  // ----- theorems about whole runs

  lemma {:induction false} RunInv(c: Config, run: seq<State>, k: nat)
    requires IsRun(c, run) && k < |run|
    ensures Inv(c, run[0], run[k])
  {
    if k == 0 {
      InitialInv(c, run[0]);
    } else {
      RunInv(c, run, k - 1);
      assert Next(c, run[k - 1], run[k - 1 + 1]);
      NextInv(c, run[0], run[k - 1], run[k]);
    }
  }

  /**
    Greedy at every purge: no queued tracker's ratio has moved since it was
    pushed, and the tracker losing an item is at least as far over quota as
    every queued one.
   */
  lemma {:induction false} PurgesAreGreedy(c: Config, run: seq<State>, k: nat)
    requires IsRun(c, run) && k + 1 < |run| && run[k + 1].log != run[k].log
    ensures var s := run[k];
            && HasActive(s) && InRange(s)
            && (exists p :: run[k + 1].log == s.log + [p] && p.who == s.active)
            && (forall j :: j in s.queue ==> s.queue[j] == RatioOf(s.ts[j]) <= RatioOf(s.ts[s.active]))
            && (forall j ::
                  j in s.queue && s.ts[j].quota > 0 && s.ts[s.active].quota > 0 && s.ts[s.active].used >= 0 ==>
                  10000 * s.ts[j].used * s.ts[s.active].quota
                  < (10000 * s.ts[s.active].used + s.ts[s.active].quota) * s.ts[j].quota)
  {
    hide Ratio, Balanced, Listed, Fair, Settled, Honest;
    RunInv(c, run, k);
    var s, s' := run[k], run[k + 1];
    assert Next(c, s, s');
    hide IsRun;
    var free :| Pop(c, s, s', free);
    assert s'.log == s.log + [s'.log[|s.log|]];
    if s.queue != map[] {
      var top :| IsTop(s.queue, top) && !NextBetter(s, top);
    }
    forall j | j in s.queue && s.ts[j].quota > 0 && s.ts[s.active].quota > 0 && s.ts[s.active].used >= 0
      ensures 10000 * s.ts[j].used * s.ts[s.active].quota
              < (10000 * s.ts[s.active].used + s.ts[s.active].quota) * s.ts[j].quota
    {
      RatioOrders(s.ts[s.active].used, s.ts[s.active].quota, s.ts[j].used, s.ts[j].quota);
    }
  }

  /**
    With DEFY_QUOTA, a run that ends other than on a measurement meeting the
    target has loaded every tracker and purged every item exactly once, from
    the back of what was loaded.
   */
  lemma {:induction false} DefyingQuotaPurgesAll(c: Config, run: seq<State>, k: nat, i: nat)
    requires IsRun(c, run) && k < |run| && i < |run[0].ts|
    requires c.defyQuota && run[k].outcome != Running && run[k].outcome != Freed
    ensures var s := run[k];
            && |s.ts| == |s.lists| == |run[0].ts|
            && s.ts[i].loaded && s.ts[i].items == []
            && Positions(s.log, i) == Downward(|s.lists[i]|, 0)
  {
    RunInv(c, run, k);
  }

  /** At every moment the books balance: cacheUsed, and what is still needed. */
  lemma {:induction false} BooksBalance(c: Config, run: seq<State>, k: nat, i: nat)
    requires IsRun(c, run) && k < |run| && i < |run[0].ts|
    ensures var s := run[k];
            && |s.ts| == |run[0].ts|
            && s.ts[i].used == run[0].ts[i].used - TakenFrom(s.log, i)
            && s.mark <= |s.log|
            && s.needed == c.target - s.free - Sizes(s.log[s.mark..])
            && s.free == (if s.measured == [] then run[0].free else s.measured[|s.measured| - 1])
            && (s.outcome == Freed ==> s.measured != [] && s.free >= c.target)
  {
    RunInv(c, run, k);
  }

  /**
    Respecting quotas: a tracker that begins below its quota is never purged,
    and a purged one ends no lower than its quota less its last purged item.
   */
  lemma {:induction false} QuotaIsRespected(c: Config, run: seq<State>, k: nat, i: nat)
    requires IsRun(c, run) && k < |run| && i < |run[0].ts| && !c.defyQuota && run[0].ts[i].quota > 0
    ensures |run[k].ts| == |run[0].ts|
    ensures run[0].ts[i].used < run[0].ts[i].quota ==>
              Positions(run[k].log, i) == [] && run[k].ts[i].used == run[0].ts[i].used
    ensures var last := LastPurge(run[k].log, i);
            last >= 0 ==> run[k].ts[i].used >= run[0].ts[i].quota - run[k].log[last].size
  {
    hide Ratio;
    RunInv(c, run, k);
    var s := run[k];
    RatioIsOverQuota(run[0].ts[i].used, run[0].ts[i].quota);
    Untouched(s.log, i);
    var last := LastPurge(s.log, i);
    if last >= 0 {
      assert s.log[last].who == i;
      RatioIsOverQuota(s.log[last].before, s.ts[i].quota);
    }
  }

  /** At most one purged tracker is below its quota, in any state of any run. */
  lemma {:induction false} AtMostOneBelowQuota(c: Config, run: seq<State>, k: nat, i: nat, j: nat)
    requires IsRun(c, run) && k < |run| && !c.defyQuota && |run[k].ts| == |run[0].ts|
    requires i < |run[k].ts| && j < |run[k].ts| && run[k].ts[i].quota > 0 && run[k].ts[j].quota > 0
    requires Positions(run[k].log, i) != [] && run[k].ts[i].used < run[k].ts[i].quota
    requires Positions(run[k].log, j) != [] && run[k].ts[j].used < run[k].ts[j].quota
    ensures i == j
  {
    hide Ratio;
    RunInv(c, run, k);
    RatioIsOverQuota(run[k].ts[i].used, run[k].ts[i].quota);
    RatioIsOverQuota(run[k].ts[j].used, run[k].ts[j].quota);
  }

  // ----- stopping at the target

  /** A target is sought, and the disk did not meet it at first. */
  predicate Seeking(c: Config, s0: State) {
    !c.defyTarget && s0.free < c.target
  }

  /**
    Until the target is met more is needed, and since the last measurement no
    beginning of what was popped was enough.
   */
  ghost predicate StillShort(c: Config, s: State) {
    && (s.outcome == Freed || (s.needed > 0 && s.free < c.target))
    && (forall n :: s.mark < n < |s.log| ==> Sizes(s.log[s.mark..n]) < c.target - s.free)
    && (forall n :: 0 <= n < |s.measured| - 1 ==> s.measured[n] < c.target)
    && (s.measured != [] ==> (s.outcome == Freed <==> s.measured[|s.measured| - 1] >= c.target))
  }

  /** A measurement is made exactly when what was popped since the last one should be enough. */
  lemma {:induction false} PopMeasures(c: Config, s: State, s': State, free: int)
    requires s.mark <= |s.log| && s.needed == c.target - s.free - Sizes(s.log[s.mark..]) && Pop(c, s, s', free)
    ensures s'.log == s.log + [s'.log[|s.log|]] && s.mark <= |s.log|
    ensures if !c.defyTarget && Sizes(s'.log[s.mark..]) >= c.target - s.free
            then s'.measured == s.measured + [free] && s'.free == free && s'.mark == |s'.log|
                 && s'.needed == c.target - free && s'.outcome == if free >= c.target then Freed else Running
            else s'.measured == s.measured && s'.free == s.free && s'.mark == s.mark && s'.outcome == Running
                 && s'.needed == c.target - s.free - Sizes(s'.log[s.mark..])
  {
    hide Ratio, IsTop, NextBetter, Sizes, TakenFrom, Positions, LastPurge;
    var p := s'.log[|s.log|];
    assert s'.log[s.mark..] == s.log[s.mark..] + [p];
    LogGrows(s.log[s.mark..], p, 0);
  }

  lemma {:induction false} PopStillShort(c: Config, s0: State, s: State, s': State, free: int)
    requires Balanced(c, s0, s) && StillShort(c, s) && !c.defyTarget && Pop(c, s, s', free)
    ensures StillShort(c, s')
  {
    hide Ratio, IsTop, NextBetter, Sizes, Purged, Checked;
    PopMeasures(c, s, s', free);
    assert s.outcome == Running;
    forall n | s'.mark < n < |s'.log|
      ensures Sizes(s'.log[s'.mark..n]) < c.target - s'.free
    {
      assert s'.log[s.mark..n] == s.log[s.mark..n];
      assert s.log[s.mark..|s.log|] == s.log[s.mark..];
    }
  }

  lemma {:induction false} NextStillShort(c: Config, s0: State, s: State, s': State)
    requires Balanced(c, s0, s) && StillShort(c, s) && !c.defyTarget && Next(c, s, s')
    ensures StillShort(c, s')
  {
    if free :| Pop(c, s, s', free) {
      PopStillShort(c, s0, s, s', free);
    } else {
      OtherSteps(c, s, s');
    }
  }

  /** Only popping changes the log and what is known of the free space. */
  lemma {:induction false} OtherSteps(c: Config, s: State, s': State)
    requires Next(c, s, s') && !(exists free :: Pop(c, s, s', free))
    ensures s.outcome == Running && s'.outcome != Freed
    ensures s'.log == s.log && s'.needed == s.needed && s'.free == s.free
    ensures s'.mark == s.mark && s'.measured == s.measured
  {
    hide Ratio, Pop, IsTop, NextBetter;
  }

  lemma {:induction false} RunStillShort(c: Config, run: seq<State>, k: nat)
    requires IsRun(c, run) && k < |run| && Seeking(c, run[0])
    ensures StillShort(c, run[k])
  {
    hide Next, StillShort, Inv;
    if k == 0 {
      assert StillShort(c, run[0]) by { InitialStillShort(c, run[0]); }
    } else {
      RunStillShort(c, run, k - 1);
      RunBalanced(c, run, k - 1);
      assert Next(c, run[k - 1], run[k - 1 + 1]);
      NextStillShort(c, run[0], run[k - 1], run[k]);
    }
  }

  lemma {:induction false} InitialStillShort(c: Config, s: State)
    requires Initial(c, s) && Seeking(c, s)
    ensures StillShort(c, s)
  {
  }

  lemma {:induction false} RunBalanced(c: Config, run: seq<State>, k: nat)
    requires IsRun(c, run) && k < |run|
    ensures Balanced(c, run[0], run[k])
  {
    RunInv(c, run, k);
  }

  /**
    The loop stops at its target: until a measurement meets it more is needed,
    so every purge starts with more needed, and the first measurement that
    meets the target is the last.
   */
  lemma {:induction false} StopsAtTarget(c: Config, run: seq<State>, k: nat)
    requires IsRun(c, run) && k < |run| && !c.defyTarget && run[0].free < c.target
    ensures run[k].outcome == Freed || run[k].needed > 0
    ensures k + 1 < |run| && run[k + 1].log != run[k].log ==> run[k].needed > 0
    ensures forall n :: 0 <= n < |run[k].measured| - 1 ==> run[k].measured[n] < c.target
    ensures run[k].outcome == Freed <==> run[k].measured != [] && run[k].measured[|run[k].measured| - 1] >= c.target
    ensures run[k].outcome == Freed ==> k == |run| - 1
  {
    hide IsTop, Ratio, NextBetter;
    RunStillShort(c, run, k);
    RunHonest(c, run, k);
    if k + 1 < |run| {
      assert Next(c, run[k], run[k + 1]);
      assert run[k].outcome == Running;
    }
  }

  lemma {:induction false} RunHonest(c: Config, run: seq<State>, k: nat)
    requires IsRun(c, run) && k < |run|
    ensures run[k].outcome == Freed ==> run[k].measured != []
  {
    RunInv(c, run, k);
  }

  /**
    Between `s` and `s'` the disk was measured exactly if an item was popped
    with which the sizes popped since the last measurement reach what was
    missing then.
   */
  ghost predicate MeasuresWhenDue(c: Config, s: State, s': State) {
    && s.mark <= |s.log| && s.log <= s'.log
    && (s'.measured != s.measured <==>
        s'.log != s.log && !c.defyTarget && Sizes(s'.log[s.mark..]) >= c.target - s.free)
    && (s'.measured != s.measured ==>
          && s'.measured == s.measured + [s'.free] && s'.mark == |s'.log|
          && (s'.outcome == Freed <==> s'.free >= c.target))
    && (s'.measured == s.measured ==> s'.free == s.free && s'.mark == s.mark)
  }

  /** The loop measures when due, and when it does the sizes popped since reach what was missing for the first time. */
  lemma {:induction false} MeasuresExactly(c: Config, run: seq<State>, k: nat)
    requires IsRun(c, run) && k + 1 < |run|
    ensures MeasuresWhenDue(c, run[k], run[k + 1])
    ensures var s := run[k];
            Seeking(c, run[0]) ==>
              forall n :: s.mark <= n <= |s.log| ==> Sizes(s.log[s.mark..n]) < c.target - s.free
  {
    hide Inv, StillShort, Sizes, Pop;
    var s, s' := run[k], run[k + 1];
    RunBalanced(c, run, k);
    assert Next(c, s, s');
    if free :| Pop(c, s, s', free) {
      PopMeasures(c, s, s', free);
    } else {
      OtherSteps(c, s, s');
    }
    if Seeking(c, run[0]) {
      RunStillShort(c, run, k);
      NoneEnough(c, run[0], s, s');
    }
  }

  /** Without a target to meet nothing is measured. */
  lemma {:induction false} DefyingTargetNeverMeasures(c: Config, run: seq<State>, k: nat)
    requires IsRun(c, run) && k < |run| && c.defyTarget
    ensures run[k].measured == []
  {
    hide Next, Sizes;
    if k > 0 {
      DefyingTargetNeverMeasures(c, run, k - 1);
      MeasuresExactly(c, run, k - 1);
    }
  }

  lemma {:induction false} NoneEnough(c: Config, s0: State, s: State, s': State)
    requires Balanced(c, s0, s) && StillShort(c, s) && Next(c, s, s')
    ensures forall n :: s.mark <= n <= |s.log| ==> Sizes(s.log[s.mark..n]) < c.target - s.free
  {
    hide Ratio, IsTop, NextBetter;
    assert s.outcome == Running;
    assert s.log[s.mark..|s.log|] == s.log[s.mark..];
    forall n | s.mark <= n <= |s.log|
      ensures Sizes(s.log[s.mark..n]) < c.target - s.free
    {
      assert n == s.mark ==> s.log[s.mark..n] == [];
    }
  }

  /**
    Why a run ended: on a measurement that meets the target, at an active
    tracker below its quota, or with every tracker loaded and purged.
   */
  lemma {:induction false} EndsFor(c: Config, run: seq<State>, k: nat)
    requires IsRun(c, run) && k < |run|
    ensures var s := run[k];
            && (s.outcome == Freed ==> !c.defyTarget && s.free >= c.target && s.measured != [] && s.mark == |s.log|)
            && (s.outcome == UnderQuota ==>
                  && !c.defyQuota && HasActive(s)
                  && (s.ts[s.active].quota > 0 ==> s.ts[s.active].used < s.ts[s.active].quota))
            && (s.outcome == Exhausted ==>
                  && |s.lists| == |s.ts|
                  && forall i :: 0 <= i < |s.ts| ==>
                       s.ts[i].loaded && s.ts[i].items == [] && Positions(s.log, i) == Downward(|s.lists[i]|, 0))
  {
    hide Ratio, Positions;
    RunInv(c, run, k);
    var s := run[k];
    if s.outcome == UnderQuota && s.ts[s.active].quota > 0 {
      RatioIsOverQuota(s.ts[s.active].used, s.ts[s.active].quota);
    }
  }

  // ----- stopping while others are over quota

  /** Every tracker but the active one is at or over its quota exactly when it began so, at an exit as at any moment. */
  lemma {:induction false} OthersStayAsTheyBegan(c: Config, run: seq<State>, k: nat, i: nat)
    requires IsRun(c, run) && k < |run| && !c.defyQuota && i < |run[0].ts| && i != run[k].active
    ensures |run[k].ts| == |run[0].ts|
    ensures RatioOf(run[k].ts[i]) >= FULL <==> RatioOf(run[0].ts[i]) >= FULL
  {
    hide Ratio, Positions, TakenFrom, Sizes, LastPurge, Tidy, Listed, Settled, Honest;
    RunInv(c, run, k);
    Untouched(run[k].log, i);
  }

  /** An active tracker that never lost an item was topmost when chosen, and still is. */
  ghost predicate Foremost(s: State) {
    HasActive(s) && InRange(s) && Positions(s.log, s.active) == [] ==>
      forall j :: j in s.queue ==> s.queue[j] <= RatioOf(s.ts[s.active])
  }

  lemma {:induction false} NextForemost(c: Config, s: State, s': State)
    requires Tidy(s) && Foremost(s) && Next(c, s, s')
    ensures Foremost(s')
  {
    hide Ratio;
    if top: nat, next: nat, found: seq<int> :| Swap(c, s, s', top, next, found) {
      assert Requeued(s)[next] == RatioOf(s.ts[next]) == RatioOf(s'.ts[next]);
    } else if free :| Pop(c, s, s', free) {
      LogGrows(s.log, Purged(s).log[|s.log|], s.active);
    }
  }

  lemma {:induction false} RunForemost(c: Config, run: seq<State>, k: nat)
    requires IsRun(c, run) && k < |run|
    ensures Foremost(run[k])
  {
    hide Next, Foremost;
    if k == 0 {
      assert Foremost(run[0]) by { InitialForemost(c, run[0]); }
    } else {
      RunInv(c, run, k - 1);
      RunForemost(c, run, k - 1);
      assert Next(c, run[k - 1], run[k - 1 + 1]);
      NextForemost(c, run[k - 1], run[k]);
    }
  }

  lemma {:induction false} InitialForemost(c: Config, s: State)
    requires Initial(c, s)
    ensures Foremost(s)
  {
  }

  /** No tracker is left in the queue at or over its quota. */
  predicate NoneWaiting(s: State) {
    forall j :: j in s.queue && j < |s.ts| ==> RatioOf(s.ts[j]) < FULL
  }

  /** Every run from `s0` that stops for the quota leaves none waiting. */
  ghost predicate StopsClean(c: Config, s0: State) {
    forall run: seq<State> ::
      IsRun(c, run) && run[0] == s0 && run[|run| - 1].outcome == UnderQuota ==> NoneWaiting(run[|run| - 1])
  }

  predicate AtMostOneOver(s: State) {
    forall i, j :: 0 <= i < |s.ts| && 0 <= j < |s.ts| && RatioOf(s.ts[i]) >= FULL && RatioOf(s.ts[j]) >= FULL ==> i == j
  }

  lemma {:induction false} StopLeavesNone(c: Config, run: seq<State>)
    requires IsRun(c, run) && !c.defyQuota && run[|run| - 1].outcome == UnderQuota && AtMostOneOver(run[0])
    ensures NoneWaiting(run[|run| - 1])
  {
    hide Ratio, Balanced, Listed, Settled;
    var n := |run| - 1;
    var s := run[n];
    RunInv(c, run, n);
    RunForemost(c, run, n);
    RunSize(c, run, n);
    forall j | j in s.queue && j < |s.ts|
      ensures RatioOf(s.ts[j]) < FULL
    {
      OthersStayAsTheyBegan(c, run, n, j);
      if Positions(s.log, s.active) != [] {
        assert RatioOf(run[0].ts[s.active]) >= FULL;
      }
    }
  }

  lemma {:induction false} RunSize(c: Config, run: seq<State>, k: nat)
    requires IsRun(c, run) && k < |run|
    ensures |run[k].ts| == |run[0].ts|
  {
    RunInv(c, run, k);
  }

  lemma {:induction false} SomeTop(queue: map<nat, int>, some: nat) returns (top: nat)
    requires some in queue
    ensures IsTop(queue, top)
    decreases |queue|
  {
    var rest := queue - {some};
    if other: nat :| other in rest {
      assert rest.Keys == queue.Keys - {some};
      assert |rest.Keys| < |queue.Keys|;
      var best: nat := SomeTop(rest, other);
      top := if queue[best] >= queue[some] then best else some;
      assert forall j :: j in queue && j != some ==> j in rest;
    } else {
      top := some;
      assert forall j :: j in queue && j != some ==> j in rest;
    }
  }

  /** Choose a topmost tracker, let it load one item worth all it uses, pop that, and stop. */
  function EarlyStop(c: Config, s0: State, top: nat): seq<State>
    requires InRange(s0) && top < |s0.ts| && !s0.ts[top].loaded
  {
    var s1 := Swapped(s0, top, [s0.ts[top].used]);
    var s2 := Checked(c, Purged(s1), c.target - 1);
    [s0, s1, s2, s2.(outcome := UnderQuota)]
  }

  lemma {:induction false} EarlySwap(c: Config, s0: State, top: nat)
    requires Initial(c, s0) && IsTop(s0.queue, top)
    ensures top < |s0.ts| && Next(c, s0, Swapped(s0, top, [s0.ts[top].used]))
  {
    hide Ratio;
    assert Swap(c, s0, Swapped(s0, top, [s0.ts[top].used]), top, top, [s0.ts[top].used]);
  }

  lemma {:induction false} EarlyPop(c: Config, s0: State, top: nat, other: nat)
    requires Initial(c, s0) && !c.defyQuota && IsTop(s0.queue, top) && top < |s0.ts| && RatioOf(s0.ts[top]) >= FULL
    requires other != top && other in s0.queue
    ensures var run := EarlyStop(c, s0, top);
            Next(c, run[1], run[2]) && run[2].active == top && other in run[2].queue
            && run[2].ts == s0.ts[top := run[2].ts[top]] && run[2].ts[top].used == 0
            && run[2].outcome == Running
  {
    hide Ratio;
    var s1 := Swapped(s0, top, [s0.ts[top].used]);
    var t2: nat := SomeTop(s1.queue, other);
    assert !NextBetter(s1, t2);
    assert Stays(c, s1);
    assert Pop(c, s1, Checked(c, Purged(s1), c.target - 1), c.target - 1);
  }

  lemma {:induction false} EmptyRatio(quota: int)
    ensures Ratio(0, quota) == 0
  {
  }

  lemma {:induction false} StopLeavesOne(c: Config, s0: State, i: nat, j: nat)
    requires Initial(c, s0) && !c.defyQuota && i < |s0.ts| && j < |s0.ts| && i != j
    requires RatioOf(s0.ts[i]) >= FULL && RatioOf(s0.ts[j]) >= FULL
    ensures !StopsClean(c, s0)
  {
    hide Ratio, Next;
    var top: nat := SomeTop(s0.queue, i);
    assert s0.queue[i] <= s0.queue[top] == RatioOf(s0.ts[top]);
    var other: nat := if top == i then j else i;
    var run := EarlyStop(c, s0, top);
    EarlySwap(c, s0, top);
    EarlyPop(c, s0, top, other);
    EmptyRatio(run[2].ts[top].quota);
    EarlyBail(c, run[2], run[3]);
    FourStates(c, run[0], run[1], run[2], run[3]);
    assert run == [run[0], run[1], run[2], run[3]];
    assert run[|run| - 1] == run[3] && run[3].ts[other] == s0.ts[other];
  }

  lemma {:induction false} FourStates(c: Config, s0: State, s1: State, s2: State, s3: State)
    requires Initial(c, s0) && Next(c, s0, s1) && Next(c, s1, s2) && Next(c, s2, s3)
    ensures IsRun(c, [s0, s1, s2, s3])
  {
    hide Next, Initial;
  }

  lemma {:induction false} EarlyBail(c: Config, s: State, s': State)
    requires HasActive(s) && !c.defyQuota && s.outcome == Running && RatioOf(s.ts[s.active]) < FULL
    requires s' == s.(outcome := UnderQuota)
    ensures Next(c, s, s')
  {
    assert Bail(c, s, s');
  }

  /**
    Without DEFY_QUOTA every run that stops for the quota leaves no queued
    tracker at or over its own, exactly when at most one began so: the test of
    the active tracker comes before the swap.
   */
  lemma {:induction false} StopsCleanExactly(c: Config, s0: State)
    requires Initial(c, s0) && !c.defyQuota
    ensures StopsClean(c, s0) <==> AtMostOneOver(s0)
  {
    if AtMostOneOver(s0) {
      forall run: seq<State> | IsRun(c, run) && run[0] == s0 && run[|run| - 1].outcome == UnderQuota
        ensures NoneWaiting(run[|run| - 1])
      {
        StopLeavesNone(c, run);
      }
    } else {
      var i, j :| 0 <= i < |s0.ts| && 0 <= j < |s0.ts| && i != j
                  && RatioOf(s0.ts[i]) >= FULL && RatioOf(s0.ts[j]) >= FULL;
      StopLeavesOne(c, s0, i, j);
    }
  }

  /** Two trackers using 20 of 10 each: the first loses its one item of 11 and the second stays at twice its quota. */
  lemma {:induction false} StopsTooEarly(c: Config) returns (run: seq<State>)
    requires !c.defyQuota
    ensures IsRun(c, run) && run[|run| - 1].outcome == UnderQuota
    ensures var s := run[|run| - 1];
            && |s.ts| == 2 && s.active == 0 && s.ts[0].used == 9
            && s.ts[1] == Tracker(20, 10, false, []) && 1 in s.queue && s.queue[1] == 20000
  {
    var t := Tracker(20, 10, false, []);
    assert RatioOf(t) == 20000;
    var s0 := State([t, t], -1, map[0 := 20000, 1 := 20000], 1, c.target - 1, [[], []], [], 0, [], Running);
    var s1 := Swapped(s0, 0, [11]);
    var s2 := Checked(c, Purged(s1), c.target - 1);
    var s3 := s2.(outcome := UnderQuota);
    FirstSteps(c, s0, s1, s2);
    assert RatioOf(s2.ts[0]) == 9000;
    EarlyBail(c, s2, s3);
    assert Initial(c, s0) by {
      assert s0.queue == map i: nat | i < |s0.ts| :: RatioOf(s0.ts[i]);
    }
    FourStates(c, s0, s1, s2, s3);
    run := [s0, s1, s2, s3];
  }

  lemma {:induction false} FirstSteps(c: Config, s0: State, s1: State, s2: State)
    requires !c.defyQuota && var t := Tracker(20, 10, false, []);
             s0 == State([t, t], -1, map[0 := 20000, 1 := 20000], 1, c.target - 1, [[], []], [], 0, [], Running)
    requires s1 == Swapped(s0, 0, [11]) && s2 == Checked(c, Purged(s1), c.target - 1)
    ensures Next(c, s0, s1) && Next(c, s1, s2)
  {
    assert Swap(c, s0, s1, 0, 0, [11]);
    assert s1.queue == map[1 := 20000];
    assert IsTop(s1.queue, 1) && !NextBetter(s1, 1);
    assert Pop(c, s1, s2, c.target - 1);
  }

  // ----- the loop ends

  function Unloaded(ts: seq<Tracker>): nat {
    if ts == [] then 0 else Unloaded(ts[..|ts| - 1]) + if ts[|ts| - 1].loaded then 0 else 1
  }

  function Left(ts: seq<Tracker>): nat {
    if ts == [] then 0 else Left(ts[..|ts| - 1]) + |ts[|ts| - 1].items|
  }

  function Live(s: State): nat {
    |s.queue| + if s.active == -1 then 0 else 1
  }

  /** No tracker is active, or a queued one beats it. */
  ghost function Restless(s: State): nat {
    if InRange(s) && HasActive(s) && !(exists j :: j in s.queue && RatioOf(s.ts[s.active]) < RatioOf(s.ts[j]))
    then 0 else 1
  }

  ghost predicate Smaller(s': State, s: State) {
    || Unloaded(s'.ts) < Unloaded(s.ts)
    || (Unloaded(s'.ts) == Unloaded(s.ts) && Left(s'.ts) < Left(s.ts))
    || (Unloaded(s'.ts) == Unloaded(s.ts) && Left(s'.ts) == Left(s.ts) && Live(s') < Live(s))
    || (Unloaded(s'.ts) == Unloaded(s.ts) && Left(s'.ts) == Left(s.ts) && Live(s') == Live(s)
        && Restless(s') < Restless(s))
  }

  lemma {:induction false} CountsAfter(ts: seq<Tracker>, i: nat, t: Tracker)
    requires i < |ts|
    ensures Unloaded(ts[i := t]) + (if ts[i].loaded then 0 else 1) == Unloaded(ts) + if t.loaded then 0 else 1
    ensures Left(ts[i := t]) + |ts[i].items| == Left(ts) + |t.items|
  {
    var n := |ts| - 1;
    if i < n {
      assert ts[i := t][..n] == ts[..n][i := t];
      CountsAfter(ts[..n], i, t);
    } else {
      assert ts[i := t][..n] == ts[..n];
    }
  }

  /** Every step the loop takes without leaving makes the measure smaller, whatever is measured or found. */
  lemma {:induction false} StepsGetSmaller(c: Config, s: State, s': State)
    requires Tidy(s) && Looping(s) && Next(c, s, s') && s'.outcome == Running
    ensures Smaller(s', s)
  {
    hide Ratio;
    if top: nat, next: nat, found: seq<int> :| Swap(c, s, s', top, next, found) {
      CountsAfter(s.ts, next, Ensured(s.ts[next], found));
      SwapTidy(c, s, s', top, next, found);
      SwapLive(c, s, s', top, next, found);
    } else if free :| Pop(c, s, s', free) {
      CountsAfter(s.ts, s.active, Purged(s).ts[s.active]);
    }
  }

  lemma {:induction false} SwapLive(c: Config, s: State, s': State, top: nat, next: nat, found: seq<int>)
    requires Tidy(s) && Swap(c, s, s', top, next, found)
    ensures Live(s') == Live(s) && Restless(s) == 1 && Restless(s') == 0
  {
    hide Ratio, Satisfied;
    SwapTidy(c, s, s', top, next, found);
    var q := Requeued(s);
    assert q.Keys == s.queue.Keys + if HasActive(s) then {s.active as nat} else {};
    assert s'.queue.Keys == q.Keys - {next};
    assert |s'.queue| == |s'.queue.Keys| == |q.Keys| - 1;
    assert |s.queue| == |s.queue.Keys|;
  }
}

/**
  The per-key lock registry of installd: LocalLockHolder and the guards taken
  through it, under any interleaving of threads.

  The registry maps a key to a weak pointer, so an entry may outlive its
  mutex only inside one critical section of the map lock.  Each step below is
  one such section, or one operation on a mutex.
 */
module LockRegistry {
  import opened Options

  /** A LocalLockHolder: its key and mRefLock. */
  datatype Holder<K> = Holder(key: K, ref: Option<nat>)

  datatype Mode = Exclusive | Shared

  /** A guard has locked its holder for `thread`. */
  datatype Guard = Guard(mode: Mode, thread: nat)

  /** A mutex: who owns it exclusively and how often, and how many share it. */
  datatype Mutex = Mutex(owner: Option<nat>, depth: nat, readers: nat)

  const FREE := Mutex(None, 0, 0)

  /**
    `entries` is the map of weak pointers.  `recursive` tells a registry of
    std::recursive_mutex (packages) from one of std::shared_mutex (users).
   */
  datatype State<K> = State(entries: map<K, nat>, holders: map<nat, Holder<K>>, guards: map<nat, Guard>,
                            mutexes: map<nat, Mutex>, nextId: nat, recursive: bool)

  predicate Refers<K>(s: State<K>, h: nat, m: nat) {
    h in s.holders && s.holders[h].ref == Some(m)
  }

  /** Some holder keeps mutex `m` alive; otherwise a weak pointer to it has expired. */
  ghost predicate Alive<K>(s: State<K>, m: nat) {
    exists h :: Refers(s, h, m)
  }

  ghost predicate Initial<K>(s: State<K>) {
    s.entries == map[] && s.holders == map[] && s.guards == map[] && s.mutexes == map[]
  }

  // ----- steps

  ghost predicate Construct<K>(s: State<K>, s': State<K>, h: nat, key: K) {
    && h !in s.holders
    && if key in s.entries && Alive(s, s.entries[key]) then
         s' == s.(holders := s.holders[h := Holder(key, Some(s.entries[key]))])
       else
         s' == s.(holders := s.holders[h := Holder(key, Some(s.nextId))],
                  entries := s.entries[key := s.nextId],
                  mutexes := s.mutexes[s.nextId := FREE],
                  nextId := s.nextId + 1)
  }

  /** The move constructor, which takes no lock. */
  ghost predicate Move<K>(s: State<K>, s': State<K>, from: nat, to: nat) {
    && from in s.holders && to !in s.holders && from !in s.guards
    && s' == s.(holders := s.holders[to := s.holders[from]][from := s.holders[from].(ref := None)])
  }

  ghost predicate Destroy<K>(s: State<K>, s': State<K>, h: nat) {
    && h in s.holders && h !in s.guards
    && var rest := s.(holders := s.holders - {h});
       var key := s.holders[h].key;
       if s.holders[h].ref == None || key !in s.entries || Alive(rest, s.entries[key]) then s' == rest
       else s' == rest.(entries := s.entries - {key})
  }

  function Taken(s: Mutex, thread: nat): Mutex {
    Mutex(Some(thread), s.depth + 1, s.readers)
  }

  ghost predicate Lock<K>(s: State<K>, s': State<K>, h: nat, thread: nat) {
    && h in s.holders && h !in s.guards && s.holders[h].ref.Some?
    && var m := s.holders[h].ref.value;
       && m in s.mutexes && s.mutexes[m].readers == 0
       && (s.mutexes[m].owner == None || (s.recursive && s.mutexes[m].owner == Some(thread)))
       && s' == s.(mutexes := s.mutexes[m := Taken(s.mutexes[m], thread)],
                   guards := s.guards[h := Guard(Exclusive, thread)])
  }

  ghost predicate Unlock<K>(s: State<K>, s': State<K>, h: nat) {
    && h in s.holders && h in s.guards && s.guards[h].mode == Exclusive && s.holders[h].ref.Some?
    && var m := s.holders[h].ref.value;
       && m in s.mutexes && s.mutexes[m].depth > 0
       && var left := s.mutexes[m].depth - 1;
          s' == s.(mutexes := s.mutexes[m := Mutex(if left == 0 then None else s.mutexes[m].owner, left,
                                                   s.mutexes[m].readers)],
                   guards := s.guards - {h})
  }

  ghost predicate LockShared<K>(s: State<K>, s': State<K>, h: nat, thread: nat) {
    && !s.recursive && h in s.holders && h !in s.guards && s.holders[h].ref.Some?
    && var m := s.holders[h].ref.value;
       && m in s.mutexes && s.mutexes[m].owner == None
       && s' == s.(mutexes := s.mutexes[m := s.mutexes[m].(readers := s.mutexes[m].readers + 1)],
                   guards := s.guards[h := Guard(Shared, thread)])
  }

  ghost predicate UnlockShared<K>(s: State<K>, s': State<K>, h: nat) {
    && h in s.holders && h in s.guards && s.guards[h].mode == Shared && s.holders[h].ref.Some?
    && var m := s.holders[h].ref.value;
       && m in s.mutexes && s.mutexes[m].readers > 0
       && s' == s.(mutexes := s.mutexes[m := s.mutexes[m].(readers := s.mutexes[m].readers - 1)],
                   guards := s.guards - {h})
  }

  ghost predicate Next<K(!new)>(s: State<K>, s': State<K>) {
    || (exists h, key :: Construct(s, s', h, key))
    || (exists from, to :: Move(s, s', from, to))
    || (exists h :: Destroy(s, s', h))
    || (exists h, thread :: Lock(s, s', h, thread))
    || (exists h :: Unlock(s, s', h))
    || (exists h, thread :: LockShared(s, s', h, thread))
    || (exists h :: UnlockShared(s, s', h))
  }

  ghost predicate IsRun<K(!new)>(run: seq<State<K>>) {
    && run != [] && Initial(run[0])
    && forall i :: 0 <= i < |run| - 1 ==> Next(run[i], run[i + 1])
  }

  // ----- what every step keeps

  ghost predicate HasHolder<K>(s: State<K>, key: K) {
    exists h :: h in s.holders && s.holders[h].key == key && s.holders[h].ref.Some?
  }

  /** Entries are exactly the keys with a live holder, and all holders of a key share its mutex. */
  ghost predicate Exact<K(!new)>(s: State<K>) {
    && (forall key :: key in s.entries <==> HasHolder(s, key))
    && (forall h :: h in s.holders && s.holders[h].ref.Some? ==>
          s.holders[h].key in s.entries && s.holders[h].ref.value == s.entries[s.holders[h].key])
  }

  /** Different keys have different mutexes, and all mutexes are accounted for. */
  ghost predicate Separate<K(!new)>(s: State<K>) {
    && (forall a, b :: a in s.entries && b in s.entries && s.entries[a] == s.entries[b] ==> a == b)
    && (forall a :: a in s.entries ==> s.entries[a] < s.nextId && s.entries[a] in s.mutexes)
    && (forall m :: m in s.mutexes ==> m < s.nextId)
    && (forall h :: h in s.guards ==> h in s.holders && s.holders[h].ref.Some?)
  }

  ghost function Locked<K>(s: State<K>, m: nat, mode: Mode): set<nat> {
    set h | h in s.guards && Refers(s, h, m) && s.guards[h].mode == mode
  }

  /** Each mutex counts the guards that hold it, and its owner is the thread of all exclusive ones. */
  ghost predicate Counted<K>(s: State<K>, m: nat)
    requires m in s.mutexes
  {
    var x := s.mutexes[m];
    && x.depth == |Locked(s, m, Exclusive)| && x.readers == |Locked(s, m, Shared)|
    && (x.owner == None <==> x.depth == 0)
    && (x.depth > 0 ==> x.readers == 0)
    && (!s.recursive ==> x.depth <= 1)
    && (forall h :: h in Locked(s, m, Exclusive) ==> x.owner == Some(s.guards[h].thread))
  }

  ghost predicate Inv<K(!new)>(s: State<K>) {
    Exact(s) && Separate(s) && forall m :: m in s.mutexes ==> Counted(s, m)
  }

  lemma {:induction false} InitialInv<K(!new)>(s: State<K>)
    requires Initial(s)
    ensures Inv(s)
  {
  }

  lemma {:induction false} JoinEntries<K(!new)>(s: State<K>, h: nat, key: K)
    requires Exact(s) && Separate(s) && h !in s.holders && key in s.entries
    ensures Alive(s, s.entries[key])
    ensures var s' := s.(holders := s.holders[h := Holder(key, Some(s.entries[key]))]);
            Exact(s') && Separate(s')
  {
    var g :| g in s.holders && s.holders[g].key == key && s.holders[g].ref.Some?;
    assert Refers(s, g, s.entries[key]);
    var s' := s.(holders := s.holders[h := Holder(key, Some(s.entries[key]))]);
    forall k
      ensures HasHolder(s', k) <==> HasHolder(s, k)
    {
      if HasHolder(s, k) {
        var f :| f in s.holders && s.holders[f].key == k && s.holders[f].ref.Some?;
        assert f in s'.holders && s'.holders[f] == s.holders[f];
      }
    }
  }

  /** `s'` is `s` with a new holder of a key that had no entry, and a new mutex. */
  ghost predicate FirstHolder<K>(s: State<K>, s': State<K>, h: nat, key: K) {
    && h !in s.holders && key !in s.entries
    && s' == s.(holders := s.holders[h := Holder(key, Some(s.nextId))], entries := s.entries[key := s.nextId],
                mutexes := s.mutexes[s.nextId := FREE], nextId := s.nextId + 1)
  }

  lemma {:induction false} NewExact<K(!new)>(s: State<K>, s': State<K>, h: nat, key: K)
    requires Exact(s) && FirstHolder(s, s', h, key)
    ensures Exact(s')
  {
    assert s'.holders[h].key == key;
    forall k | k != key
      ensures HasHolder(s', k) <==> HasHolder(s, k)
    {
      if HasHolder(s, k) {
        var f :| f in s.holders && s.holders[f].key == k && s.holders[f].ref.Some?;
        assert f in s'.holders && s'.holders[f] == s.holders[f];
      }
    }
  }

  lemma {:induction false} NewSeparate<K(!new)>(s: State<K>, s': State<K>, h: nat, key: K)
    requires Separate(s) && FirstHolder(s, s', h, key)
    ensures Separate(s')
  {
  }

  lemma {:induction false} ConstructEntries<K(!new)>(s: State<K>, s': State<K>, h: nat, key: K)
    requires Exact(s) && Separate(s) && Construct(s, s', h, key)
    ensures Exact(s') && Separate(s')
  {
    hide Exact, Separate, Alive;
    if key in s.entries {
      JoinEntries(s, h, key);
    } else {
      NewExact(s, s', h, key);
      NewSeparate(s, s', h, key);
    }
  }

  /** A mutex whose guards did not change still counts them. */
  lemma {:induction false} CountedKept<K(!new)>(s: State<K>, s': State<K>, m: nat)
    requires m in s.mutexes && m in s'.mutexes && Counted(s, m)
    requires s'.mutexes[m] == s.mutexes[m] && s'.recursive == s.recursive && s'.guards == s.guards
    requires forall h :: h in s.guards ==> (Refers(s', h, m) <==> Refers(s, h, m))
    ensures Counted(s', m)
  {
    assert Locked(s', m, Exclusive) == Locked(s, m, Exclusive);
    assert Locked(s', m, Shared) == Locked(s, m, Shared);
  }

  lemma {:induction false} ConstructCounts<K(!new)>(s: State<K>, s': State<K>, h: nat, key: K, m: nat)
    requires Inv(s) && Construct(s, s', h, key) && m in s'.mutexes
    ensures Counted(s', m)
  {
    hide Exact, Alive;
    if m in s.mutexes {
      CountedKept(s, s', m);
    } else {
      hide Inv;
      NothingRefers(s, m);
      assert Locked(s', m, Exclusive) == {} && Locked(s', m, Shared) == {};
    }
  }

  lemma {:induction false} NothingRefers<K(!new)>(s: State<K>, m: nat)
    requires Inv(s) && m !in s.mutexes
    ensures forall g :: g in s.guards ==> g in s.holders && !Refers(s, g, m)
  {
  }

  lemma {:induction false} ConstructInv<K(!new)>(s: State<K>, s': State<K>, h: nat, key: K)
    requires Inv(s) && Construct(s, s', h, key)
    ensures Inv(s')
  {
    ConstructEntries(s, s', h, key);
    hide Exact, Separate, Counted, Construct;
    forall m | m in s'.mutexes
      ensures Counted(s', m)
    {
      ConstructCounts(s, s', h, key, m);
    }
  }

  lemma {:induction false} MoveEntries<K(!new)>(s: State<K>, s': State<K>, from: nat, to: nat)
    requires Exact(s) && Separate(s) && Move(s, s', from, to)
    ensures Exact(s') && Separate(s')
  {
    forall k
      ensures HasHolder(s', k) <==> HasHolder(s, k)
    {
      if HasHolder(s, k) {
        var g :| g in s.holders && s.holders[g].key == k && s.holders[g].ref.Some?;
        assert g != from ==> g in s'.holders && s'.holders[g] == s.holders[g];
        assert g == from ==> s'.holders[to] == s.holders[g];
      }
    }
  }

  lemma {:induction false} MoveInv<K(!new)>(s: State<K>, s': State<K>, from: nat, to: nat)
    requires Inv(s) && Move(s, s', from, to)
    ensures Inv(s')
  {
    MoveEntries(s, s', from, to);
    assert to !in s.guards;
    hide Exact, Separate, Counted;
    forall m | m in s'.mutexes
      ensures Counted(s', m)
    {
      CountedKept(s, s', m);
    }
  }

  lemma {:induction false} DestroyEntries<K(!new)>(s: State<K>, s': State<K>, h: nat)
    requires Exact(s) && Separate(s) && Destroy(s, s', h)
    ensures Exact(s') && Separate(s')
  {
    var rest := s.(holders := s.holders - {h});
    var key := s.holders[h].key;
    forall k | k != key || s.holders[h].ref == None
      ensures HasHolder(s', k) <==> HasHolder(s, k)
    {
      if HasHolder(s, k) {
        var g :| g in s.holders && s.holders[g].key == k && s.holders[g].ref.Some?;
        assert g != h && g in s'.holders && s'.holders[g] == s.holders[g];
      }
    }
    if s.holders[h].ref.Some? {
      if HasHolder(s', key) {
        var g :| g in s'.holders && s'.holders[g].key == key && s'.holders[g].ref.Some?;
        assert Refers(rest, g, s.entries[key]);
      }
      if Alive(rest, s.entries[key]) {
        var g :| Refers(rest, g, s.entries[key]);
        assert g in s'.holders && s'.holders[g] == s.holders[g];
      }
    }
  }

  lemma {:induction false} DestroyInv<K(!new)>(s: State<K>, s': State<K>, h: nat)
    requires Inv(s) && Destroy(s, s', h)
    ensures Inv(s')
  {
    DestroyEntries(s, s', h);
    hide Exact, Separate, Counted, Alive;
    forall m | m in s'.mutexes
      ensures Counted(s', m)
    {
      CountedKept(s, s', m);
    }
  }

  /** What a guard operation through `h` leaves alone. */
  ghost predicate GuardStep<K(!new)>(s: State<K>, s': State<K>, h: nat) {
    && h in s.holders && s.holders[h].ref.Some?
    && s'.holders == s.holders && s'.entries == s.entries && s'.nextId == s.nextId && s'.recursive == s.recursive
    && s'.mutexes.Keys == s.mutexes.Keys
    && (forall m :: m in s.mutexes && Some(m) != s.holders[h].ref ==> s'.mutexes[m] == s.mutexes[m])
    && (forall g :: g != h ==> (g in s'.guards <==> g in s.guards) && (g in s.guards ==> s'.guards[g] == s.guards[g]))
  }

  lemma {:induction false} GuardEntries<K(!new)>(s: State<K>, s': State<K>, h: nat)
    requires Exact(s) && Separate(s) && GuardStep(s, s', h)
    ensures Exact(s') && Separate(s')
  {
    forall k
      ensures HasHolder(s', k) <==> HasHolder(s, k)
    {
    }
  }

  /** Taking or dropping a guard of another mutex leaves this one's count alone. */
  lemma {:induction false} CountedElsewhere<K(!new)>(s: State<K>, s': State<K>, h: nat, m: nat)
    requires GuardStep(s, s', h) && m in s.mutexes && Some(m) != s.holders[h].ref && Counted(s, m)
    ensures Counted(s', m)
  {
    assert Locked(s', m, Exclusive) == Locked(s, m, Exclusive);
    assert Locked(s', m, Shared) == Locked(s, m, Shared);
  }

  lemma {:induction false} GuardInv<K(!new)>(s: State<K>, s': State<K>, h: nat)
    requires Inv(s) && GuardStep(s, s', h)
    requires s.holders[h].ref.value in s'.mutexes ==> Counted(s', s.holders[h].ref.value)
    ensures Inv(s')
  {
    GuardEntries(s, s', h);
    assert s'.mutexes.Keys == s.mutexes.Keys;
    hide Exact, Separate, Counted, GuardStep;
    forall m | m in s'.mutexes
      ensures Counted(s', m)
    {
      if s.holders[h].ref != Some(m) {
        CountedElsewhere(s, s', h, m);
      }
    }
  }

  lemma {:induction false} LockCounts<K(!new)>(s: State<K>, s': State<K>, h: nat, thread: nat)
    requires Lock(s, s', h, thread) && Counted(s, s.holders[h].ref.value)
    ensures GuardStep(s, s', h) && Counted(s', s.holders[h].ref.value)
  {
    var m := s.holders[h].ref.value;
    assert Locked(s', m, Exclusive) == Locked(s, m, Exclusive) + {h};
    assert Locked(s', m, Shared) == Locked(s, m, Shared);
  }

  lemma {:induction false} LockSharedCounts<K(!new)>(s: State<K>, s': State<K>, h: nat, thread: nat)
    requires LockShared(s, s', h, thread) && Counted(s, s.holders[h].ref.value)
    ensures GuardStep(s, s', h) && Counted(s', s.holders[h].ref.value)
  {
    var m := s.holders[h].ref.value;
    assert Locked(s', m, Exclusive) == Locked(s, m, Exclusive);
    assert Locked(s', m, Shared) == Locked(s, m, Shared) + {h};
  }

  lemma {:induction false} UnlockCounts<K(!new)>(s: State<K>, s': State<K>, h: nat)
    requires Unlock(s, s', h) && Counted(s, s.holders[h].ref.value)
    ensures GuardStep(s, s', h) && Counted(s', s.holders[h].ref.value)
  {
    var m := s.holders[h].ref.value;
    assert h in Locked(s, m, Exclusive);
    assert Locked(s', m, Exclusive) == Locked(s, m, Exclusive) - {h};
    assert Locked(s', m, Shared) == Locked(s, m, Shared);
  }

  lemma {:induction false} UnlockSharedCounts<K(!new)>(s: State<K>, s': State<K>, h: nat)
    requires UnlockShared(s, s', h) && Counted(s, s.holders[h].ref.value)
    ensures GuardStep(s, s', h) && Counted(s', s.holders[h].ref.value)
  {
    var m := s.holders[h].ref.value;
    assert h in Locked(s, m, Shared);
    assert Locked(s', m, Exclusive) == Locked(s, m, Exclusive);
    assert Locked(s', m, Shared) == Locked(s, m, Shared) - {h};
  }

  lemma {:induction false} NextInv<K(!new)>(s: State<K>, s': State<K>)
    requires Inv(s) && Next(s, s')
    ensures Inv(s')
  {
    hide Inv, Counted, GuardStep, Alive;
    if h, key :| Construct(s, s', h, key) {
      ConstructInv(s, s', h, key);
    } else if from, to :| Move(s, s', from, to) {
      MoveInv(s, s', from, to);
    } else if h :| Destroy(s, s', h) {
      DestroyInv(s, s', h);
    } else if h, thread :| Lock(s, s', h, thread) {
      CountedAt(s, h);
      LockCounts(s, s', h, thread);
      GuardInv(s, s', h);
    } else if h, thread :| LockShared(s, s', h, thread) {
      CountedAt(s, h);
      LockSharedCounts(s, s', h, thread);
      GuardInv(s, s', h);
    } else if h :| Unlock(s, s', h) {
      CountedAt(s, h);
      UnlockCounts(s, s', h);
      GuardInv(s, s', h);
    } else {
      var h :| UnlockShared(s, s', h);
      CountedAt(s, h);
      UnlockSharedCounts(s, s', h);
      GuardInv(s, s', h);
    }
  }

  lemma {:induction false} CountedAt<K(!new)>(s: State<K>, h: nat)
    requires Inv(s) && h in s.holders && s.holders[h].ref.Some? && s.holders[h].ref.value in s.mutexes
    ensures Counted(s, s.holders[h].ref.value)
  {
  }

  lemma {:induction false} RunInv<K(!new)>(run: seq<State<K>>, i: nat)
    requires IsRun(run) && i < |run|
    ensures Inv(run[i])
  {
    if i == 0 {
      InitialInv(run[0]);
    } else {
      RunInv(run, i - 1);
      assert Next(run[i - 1], run[i - 1 + 1]);
      NextInv(run[i - 1], run[i]);
    }
  }

  // ----- theorems about every reachable state

  /** A key has an entry exactly while a live holder for it exists, and all of them share its mutex. */
  lemma {:induction false} EntriesMatchHolders<K(!new)>(run: seq<State<K>>, i: nat, key: K)
    requires IsRun(run) && i < |run|
    ensures key in run[i].entries <==> HasHolder(run[i], key)
    ensures forall h, g :: h in run[i].holders && g in run[i].holders
              && run[i].holders[h].key == key && run[i].holders[g].key == key
              && run[i].holders[h].ref.Some? && run[i].holders[g].ref.Some?
              ==> run[i].holders[h].ref == run[i].holders[g].ref
  {
    RunInv(run, i);
  }

  ghost predicate Holds<K>(s: State<K>, h: nat, key: K, mode: Mode) {
    h in s.holders && h in s.guards && s.holders[h].key == key && s.guards[h].mode == mode
  }

  /** Two guards hold a key exclusively only if one thread took a recursive mutex twice. */
  lemma {:induction false} MutualExclusion<K(!new)>(run: seq<State<K>>, i: nat, key: K, h: nat, g: nat)
    requires IsRun(run) && i < |run|
    requires Holds(run[i], h, key, Exclusive) && Holds(run[i], g, key, Exclusive)
    ensures run[i].guards[h].thread == run[i].guards[g].thread
    ensures h != g ==> run[i].recursive
  {
    RunInv(run, i);
    var s := run[i];
    var m := s.entries[key];
    assert m in s.mutexes && Counted(s, m);
    assert h in Locked(s, m, Exclusive) && g in Locked(s, m, Exclusive);
    if h != g {
      assert {h, g} <= Locked(s, m, Exclusive);
      SubsetSize({h, g}, Locked(s, m, Exclusive));
    }
  }

  lemma {:induction false} SubsetSize(a: set<nat>, b: set<nat>)
    requires a <= b
    ensures |a| <= |b|
  {
    assert b == a + (b - a);
  }

  /** While a guard holds a key exclusively, none shares it. */
  lemma {:induction false} WriterExcludesReaders<K(!new)>(run: seq<State<K>>, i: nat, key: K, h: nat, g: nat)
    requires IsRun(run) && i < |run|
    ensures !(Holds(run[i], h, key, Exclusive) && Holds(run[i], g, key, Shared))
  {
    RunInv(run, i);
    var s := run[i];
    if Holds(s, h, key, Exclusive) {
      var m := s.entries[key];
      assert m in s.mutexes && Counted(s, m);
      assert h in Locked(s, m, Exclusive);
      assert g !in Locked(s, m, Shared);
    }
  }

  lemma {:induction false} GuardsOfKey<K(!new)>(s: State<K>, h: nat)
    requires Inv(s) && h in s.holders && s.holders[h].ref.Some?
    ensures var key, m := s.holders[h].key, s.holders[h].ref.value;
            && m in s.mutexes && Counted(s, m)
            && forall g, mode :: g in Locked(s, m, mode) <==> Holds(s, g, key, mode)
  {
    hide Counted;
  }

  /**
    A thread can lock a key exclusively exactly when nobody shares it and
    nobody else has it exclusively, the same thread only with a recursive
    mutex; it can share it exactly when nobody has it exclusively.
   */
  lemma {:induction false} LocksExactly<K(!new)>(run: seq<State<K>>, i: nat, h: nat, thread: nat)
    requires IsRun(run) && i < |run| && h in run[i].holders && run[i].holders[h].ref.Some? && h !in run[i].guards
    ensures var s, key := run[i], run[i].holders[h].key;
            && ((exists s' :: Lock(s, s', h, thread)) <==>
                && (forall g :: !Holds(s, g, key, Shared))
                && (forall g :: Holds(s, g, key, Exclusive) ==> s.recursive && s.guards[g].thread == thread))
            && ((exists s' :: LockShared(s, s', h, thread)) <==>
                !s.recursive && forall g :: !Holds(s, g, key, Exclusive))
  {
    hide Inv, Holds;
    RunInv(run, i);
    var s := run[i];
    hide IsRun;
    GuardsOfKey(s, h);
    var m := s.holders[h].ref.value;
    LockEnabled(s, h, thread);
    assert s.mutexes[m].readers == 0 <==> forall g :: g !in Locked(s, m, Shared) by { EmptySize(Locked(s, m, Shared)); }
    assert s.mutexes[m].owner == None <==> forall g :: g !in Locked(s, m, Exclusive) by {
      EmptySize(Locked(s, m, Exclusive));
    }
    if s.mutexes[m].owner != None {
      var g :| g in Locked(s, m, Exclusive);
      assert Holds(s, g, s.holders[h].key, Exclusive);
    }
  }

  lemma {:induction false} EmptySize(a: set<nat>)
    ensures |a| == 0 <==> forall g :: g !in a
  {
    assert |a| == 0 <==> a == {};
    assert a == {} <==> forall g :: g !in a;
  }

  lemma {:induction false} LockEnabled<K(!new)>(s: State<K>, h: nat, thread: nat)
    requires h in s.holders && s.holders[h].ref.Some? && h !in s.guards && s.holders[h].ref.value in s.mutexes
    ensures var x := s.mutexes[s.holders[h].ref.value];
            && ((exists s' :: Lock(s, s', h, thread)) <==>
                x.readers == 0 && (x.owner == None || (s.recursive && x.owner == Some(thread))))
            && ((exists s' :: LockShared(s, s', h, thread)) <==> !s.recursive && x.owner == None)
  {
    var m := s.holders[h].ref.value;
    var x := s.mutexes[m];
    if x.readers == 0 && (x.owner == None || (s.recursive && x.owner == Some(thread))) {
      assert Lock(s, s.(mutexes := s.mutexes[m := Taken(x, thread)], guards := s.guards[h := Guard(Exclusive, thread)]),
                  h, thread);
    }
    if !s.recursive && x.owner == None {
      assert LockShared(s, s.(mutexes := s.mutexes[m := x.(readers := x.readers + 1)],
                              guards := s.guards[h := Guard(Shared, thread)]), h, thread);
    }
  }

  /** A guard can always be dropped, and then holds nothing any more. */
  lemma {:induction false} UnlocksAlways<K(!new)>(run: seq<State<K>>, i: nat, h: nat)
    requires IsRun(run) && i < |run| && h in run[i].guards
    ensures exists s' :: (Unlock(run[i], s', h) || UnlockShared(run[i], s', h)) && s'.guards == run[i].guards - {h}
  {
    RunInv(run, i);
    GuardDrops(run[i], h);
  }

  lemma {:induction false} GuardDrops<K(!new)>(s: State<K>, h: nat)
    requires Inv(s) && h in s.guards
    ensures exists s' :: (Unlock(s, s', h) || UnlockShared(s, s', h)) && s'.guards == s.guards - {h}
  {
    hide Inv, Unlock, UnlockShared;
    GuardIsCounted(s, h);
    var s' := UnlockEnabled(s, h);
  }

  lemma {:induction false} GuardIsCounted<K(!new)>(s: State<K>, h: nat)
    requires Inv(s) && h in s.guards
    ensures h in s.holders && s.holders[h].ref.Some? && s.holders[h].ref.value in s.mutexes
    ensures var x := s.mutexes[s.holders[h].ref.value];
            if s.guards[h].mode == Exclusive then x.depth > 0 else x.readers > 0
  {
    assert h in s.holders && s.holders[h].ref.Some?;
    GuardsOfKey(s, h);
    hide Inv;
    var m, mode := s.holders[h].ref.value, s.guards[h].mode;
    assert h in Locked(s, m, mode);
    SubsetSize({h}, Locked(s, m, mode));
  }

  lemma {:induction false} UnlockEnabled<K(!new)>(s: State<K>, h: nat) returns (s': State<K>)
    requires h in s.guards && h in s.holders && s.holders[h].ref.Some? && s.holders[h].ref.value in s.mutexes
    requires var x := s.mutexes[s.holders[h].ref.value];
             if s.guards[h].mode == Exclusive then x.depth > 0 else x.readers > 0
    ensures (Unlock(s, s', h) || UnlockShared(s, s', h)) && s'.guards == s.guards - {h}
  {
    var m := s.holders[h].ref.value;
    var x := s.mutexes[m];
    var y := if s.guards[h].mode == Shared then x.(readers := x.readers - 1)
             else Mutex(if x.depth == 1 then None else x.owner, x.depth - 1, x.readers);
    s' := s.(mutexes := s.mutexes[m := y], guards := s.guards - {h});
  }

  lemma {:induction false} MovedAlive<K>(s: State<K>, s': State<K>, from: nat, to: nat, m: nat)
    requires Move(s, s', from, to)
    ensures Alive(s', m) <==> Alive(s, m)
  {
    if Alive(s, m) {
      var h :| Refers(s, h, m);
      assert Refers(s', if h == from then to else h, m);
    }
    if Alive(s', m) {
      var h :| Refers(s', h, m);
      assert Refers(s, if h == to then from else h, m);
    }
  }

  // ----- the registry itself, one critical section of the map lock at a time

  class Registry<K(==)> {
    const recursive: bool
    var entries: map<K, nat>
    var holders: map<nat, Holder<K>>
    var guards: map<nat, Guard>
    var mutexes: map<nat, Mutex>
    var nextId: nat

    function Value(): State<K>
      reads this
    {
      State(entries, holders, guards, mutexes, nextId, recursive)
    }

    constructor (recursive: bool)
      ensures Initial(Value()) && this.recursive == recursive
    {
      this.recursive := recursive;
      entries, holders, guards, mutexes, nextId := map[], map[], map[], map[], 0;
    }

    /** Locking a weak pointer fails once no holder refers to the mutex. */
    method Expired(m: nat) returns (expired: bool)
      ensures expired <==> !Alive(Value(), m)
    {
      expired := !exists h :: h in holders && holders[h].ref == Some(m);
      assert forall h :: Refers(Value(), h, m) <==> h in holders && holders[h].ref == Some(m);
    }

    method ConstructHolder(h: nat, key: K)
      requires h !in holders
      modifies this
      ensures Construct(old(Value()), Value(), h, key)
    {
      var expired := true;
      if key in entries {
        expired := Expired(entries[key]);
      }
      if expired {
        mutexes := mutexes[nextId := FREE];
        entries := entries[key := nextId];
        nextId := nextId + 1;
      }
      holders := holders[h := Holder(key, Some(entries[key]))];
    }

    /** The move constructor: the new holder keeps the mutex alive, and the old one no longer does. */
    method MoveHolder(from: nat, to: nat)
      requires from in holders && to !in holders && from !in guards
      modifies this
      ensures Move(old(Value()), Value(), from, to)
      ensures holders[to] == old(holders[from]) && holders[from].ref == None
      ensures forall m :: Alive(Value(), m) <==> old(Alive(Value(), m))
    {
      ghost var s := Value();
      holders := holders[to := holders[from]][from := holders[from].(ref := None)];
      forall m
        ensures Alive(Value(), m) <==> Alive(s, m)
      {
        MovedAlive(s, Value(), from, to, m);
      }
    }

    method DestroyHolder(h: nat)
      requires h in holders && h !in guards
      modifies this
      ensures Destroy(old(Value()), Value(), h)
    {
      var holder := holders[h];
      holders := holders - {h};
      if holder.ref == None {
        return;
      }
      if holder.key !in entries {
        return;
      }
      var expired := Expired(entries[holder.key]);
      if expired {
        entries := entries - {holder.key};
      }
    }
  }
}

/**
  snapshotAppData, clearAppData and restoreAppDataSnapshot for one package and
  user: the package's credential-encrypted (CE) and device-encrypted (DE) data
  and the snapshots of both.  Every file-system call may fail part way.
 */
module Snapshot {
  import opened Fts

  datatype Node = Directory(meta: int) | Regular(meta: int, content: seq<int>) | Symlink(meta: int, target: string)

  /** An entry below a package's directory. */
  type Below = q: Path | q != [] witness [""]

  /** A package's directory, if it exists, with everything below it. */
  datatype Store = Missing | Present(files: map<Below, Node>)

  function Contents(s: Store): map<Below, Node> {
    if s.Missing? then map[] else s.files
  }

  /** How a call went: a failed one dealt with the entries in `handled` only. */
  datatype Outcome = Done | Failed(handled: set<Below>, made: bool)

  /** delete_dir_contents of the directory at `sub`. */
  function Deleted(s: Store, sub: Path, o: Outcome): Store {
    match s
    case Missing => Missing
    case Present(files) => Present(map q | q in files && !(sub < q && (o.Done? || q in o.handled)) :: files[q])
  }

  /** delete_dir_contents_and_dir. */
  function Removed(s: Store, o: Outcome): Store {
    if o.Done? then Missing else Deleted(s, [], o)
  }

  /** cp -R of the package directory `from` over `to`, replacing files of the same name. */
  function Copied(from: map<Below, Node>, to: Store, o: Outcome): Store {
    match o
    case Done => Present(Contents(to) + from)
    case Failed(handled, made) =>
      if to.Missing? && !made then Missing
      else Present(Contents(to) + map q | q in from && q in handled :: from[q])
  }

  /** A copy, failed or not, only adds entries of what is copied or replaces entries by them; a complete one all. */
  lemma {:induction false} CopiedMeans(from: map<Below, Node>, to: Store, o: Outcome, q: Below)
    ensures var c := Copied(from, to, o);
            && (to.Present? || o.Done? ==> c.Present?)
            && (q in Contents(to) ==> q in Contents(c) && (Contents(c)[q] == Contents(to)[q] || q in from))
            && (q in Contents(c) ==> q in Contents(to) || (q in from && Contents(c)[q] == from[q]))
            && (o.Done? && q in from ==> q in Contents(c) && Contents(c)[q] == from[q])
  {
  }

  /** FLAG_STORAGE_CE and FLAG_STORAGE_DE. */
  datatype Flags = Flags(ce: bool, de: bool)

  /** What FLAG_CLEAR_CACHE_ONLY and FLAG_CLEAR_CODE_CACHE_ONLY restrict clearing to. */
  datatype Scope = Everything | CacheOnly | CodeCacheOnly

  /** The CE cache directories are found by inode, and so may have any name. */
  datatype Names = Names(cache: string, codeCache: string)

  function ScopePath(names: Names, scope: Scope): Path {
    match scope
    case Everything => []
    case CacheOnly => [names.cache]
    case CodeCacheOnly => [names.codeCache]
  }

  const DE_NAMES := Names("cache", "code_cache")

  predicate Exists(s: Store, sub: Path) {
    s.Present? && (sub == [] || sub in s.files)
  }

  function Cleared(s: Store, sub: Path): Store {
    if Exists(s, sub) then Deleted(s, sub, Done) else s
  }

  function Emptied(s: Store): Store {
    if s.Missing? then Missing else Present(map[])
  }

  /** Without what both of its cache directories hold. */
  function Uncached(s: Store, names: Names): Store {
    Cleared(Cleared(s, [names.cache]), [names.codeCache])
  }

  /** Clearing a directory that is there removes everything below it and nothing else. */
  lemma {:induction false} ClearedExactly(s: Store, sub: Path, q: Below)
    ensures Cleared(s, sub).Present? <==> s.Present?
    ensures q in Contents(Cleared(s, sub)) <==> q in Contents(s) && !(Exists(s, sub) && sub < q)
    ensures q in Contents(Cleared(s, sub)) ==> Contents(Cleared(s, sub))[q] == Contents(s)[q]
  {
  }

  /** What an entry directly below the package's directory holds is only there with it. */
  ghost predicate Rooted(s: Store) {
    forall q :: q in Contents(s) ==> q[..1] in Contents(s)
  }

  /** Without caches everything is left that lies below neither cache directory. */
  lemma {:induction false} UncachedExactly(s: Store, names: Names, q: Below)
    requires Rooted(s)
    ensures Uncached(s, names).Present? <==> s.Present?
    ensures q in Contents(Uncached(s, names)) <==>
            q in Contents(s) && !([names.cache] < q) && !([names.codeCache] < q)
    ensures q in Contents(Uncached(s, names)) ==> Contents(Uncached(s, names))[q] == Contents(s)[q]
  {
    hide Cleared;
    var mid := Cleared(s, [names.cache]);
    ClearedExactly(s, [names.cache], q);
    ClearedExactly(mid, [names.codeCache], q);
    ClearedExactly(s, [names.cache], [names.codeCache]);
    if q in Contents(s) {
      assert [names.cache] < q ==> q[..1] == [names.cache];
      assert [names.codeCache] < q ==> q[..1] == [names.codeCache];
    }
  }

  /** Only entries inside a cache directory are gone. */
  ghost predicate OnlyCachesLost(a: Store, b: Store, names: Names) {
    && (a.Present? <==> b.Present?)
    && (forall q :: q in Contents(b) ==> q in Contents(a) && Contents(a)[q] == Contents(b)[q])
    && (forall q :: q in Contents(a) && !([names.cache] < q) && !([names.codeCache] < q) ==> q in Contents(b))
  }

  /** A clearing of `sub` that may have failed part way. */
  ghost predicate Lost(a: Store, b: Store, sub: Path) {
    && (a.Present? <==> b.Present?)
    && (forall q :: q in Contents(b) ==> q in Contents(a) && Contents(a)[q] == Contents(b)[q])
    && (forall q :: q in Contents(a) && !(sub < q) ==> q in Contents(b))
  }

  /** A snapshot is the old one, perhaps with entries gone, or gone, or complete. */
  ghost predicate NoFragment(before: Store, now: Store, data: Store) {
    Lost(before, now, []) || now.Missing? || now == data
  }

  /** Where a restore failed: clearing the data, copying either snapshot back, or labelling what was restored. */
  datatype Stage = Clearing | CopyingCe | CopyingDe | Labelling

  /** A storage's part of a snapshot: taken, refused at the start, or copied in vain and then deleted. */
  datatype Status = Taken | Refused | Undone(deleted: bool)

  datatype Device = Device(ce: Store, de: Store, ceSnap: Store, deSnap: Store)

  // ----- what a snapshot and a restore may do

  /** `uncached` says that clearing the caches succeeded. */
  ghost predicate Snapshotted(a: Device, b: Device, flags: Flags, names: Names, ok: bool, uncached: bool) {
    && OnlyCachesLost(a.ce, b.ce, names) && OnlyCachesLost(a.de, b.de, DE_NAMES)
    && (!flags.ce ==> b.ce == a.ce && b.ceSnap == a.ceSnap)
    && (!flags.de ==> b.de == a.de && b.deSnap == a.deSnap)
    && (ok && flags.de ==> b.deSnap == if a.de.Present? then a.de else Emptied(a.deSnap))
    && (ok && flags.ce ==> b.ceSnap == if a.ce.Present? then b.ce else a.ceSnap)
    && (ok && flags.ce && uncached && a.ce.Present? ==> b.ce == Uncached(a.ce, names))
  }

  predicate NeedsCe(a: Device, flags: Flags) {
    flags.ce && a.ceSnap.Present?
  }

  predicate NeedsDe(a: Device, flags: Flags) {
    flags.de && a.deSnap.Present?
  }

  /** `dropped` says that deleting the snapshots, whose result is ignored, succeeded. */
  ghost predicate Restored(a: Device, b: Device, flags: Flags, ok: bool, dropped: bool) {
    if !NeedsCe(a, flags) && !NeedsDe(a, flags) then ok && b == a
    else
      && (!flags.ce ==> b.ce == a.ce) && (!flags.de ==> b.de == a.de)
      && (!NeedsCe(a, flags) ==> b.ceSnap == a.ceSnap) && (!NeedsDe(a, flags) ==> b.deSnap == a.deSnap)
      && (ok && flags.ce ==> b.ce == if NeedsCe(a, flags) then a.ceSnap else Emptied(a.ce))
      && (ok && flags.de ==> b.de == if NeedsDe(a, flags) then a.deSnap else Emptied(a.de))
      && (ok && dropped ==> (NeedsCe(a, flags) ==> b.ceSnap.Missing?) && (NeedsDe(a, flags) ==> b.deSnap.Missing?))
  }

  /** The storages that `a` has snapshots of hold their contents in `c`. */
  ghost predicate GivenBack(a: Device, c: Device, flags: Flags) {
    && (NeedsCe(a, flags) ==> Contents(c.ce) == Contents(a.ceSnap))
    && (NeedsDe(a, flags) ==> Contents(c.de) == Contents(a.deSnap))
  }

  /**
    What another restore makes of a storage: a snapshot that is there is
    copied; without one the data is cleared, if the other storage has one.
   */
  function AfterRepeat(data: Store, snap: Store, other: bool): map<Below, Node> {
    if snap.Present? then Contents(snap) else if other then map[] else Contents(data)
  }

  /** Left with `b`, a restore of what `a` had snapshots of can still be made good. */
  ghost predicate Repeatable(a: Device, b: Device, flags: Flags) {
    && (NeedsCe(a, flags) ==> AfterRepeat(b.ce, b.ceSnap, NeedsDe(b, flags)) == Contents(a.ceSnap))
    && (NeedsDe(a, flags) ==> AfterRepeat(b.de, b.deSnap, NeedsCe(b, flags)) == Contents(a.deSnap))
  }

  /** Another restore that succeeds gives back what the first was to restore exactly when that is still repeatable. */
  lemma {:induction false} RepeatExactly(a: Device, b: Device, c: Device, flags: Flags, dropped: bool)
    requires Restored(b, c, flags, true, dropped)
    ensures GivenBack(a, c, flags) <==> Repeatable(a, b, flags)
  {
  }

  // ----- the calls themselves

  class AppData {
    const names: Names
    const calls: nat -> Outcome
    var clock: nat
    var ce: Store
    var de: Store
    var ceSnap: Store
    var deSnap: Store

    function Now(): Device
      reads this
    {
      Device(ce, de, ceSnap, deSnap)
    }

    constructor (d: Device, names: Names, calls: nat -> Outcome)
      ensures Now() == d && this.names == names && this.calls == calls && clock == 0
    {
      this.names, this.calls, clock := names, calls, 0;
      ce, de, ceSnap, deSnap := d.ce, d.de, d.ceSnap, d.deSnap;
    }

    /** No call between two moments failed. */
    ghost predicate Sound(from: nat, to: nat) {
      forall k :: from <= k < to ==> calls(k) == Done
    }

    /** The outcome of the next file-system call. */
    method Call() returns (o: Outcome)
      modifies this`clock
      ensures clock == old(clock) + 1 && o == calls(old(clock))
    {
      o := calls(clock);
      clock := clock + 1;
    }

    /** clearAppData over CE and DE; it goes on to the second storage when the first fails. */
    method ClearAppData(flags: Flags, scope: Scope) returns (ok: bool)
      modifies this`clock, this`ce, this`de
      ensures Lost(old(ce), ce, ScopePath(names, scope)) && Lost(old(de), de, ScopePath(DE_NAMES, scope))
      ensures !flags.ce ==> ce == old(ce)
      ensures !flags.de ==> de == old(de)
      ensures ok && flags.ce ==> ce == Cleared(old(ce), ScopePath(names, scope))
      ensures ok && flags.de ==> de == Cleared(old(de), ScopePath(DE_NAMES, scope))
      ensures ok && flags.ce && scope == CacheOnly ==> ce == Cleared(old(ce), [names.cache])
      ensures ok && flags.ce && scope == CodeCacheOnly ==> ce == Cleared(old(ce), [names.codeCache])
      ensures ok && flags.de && scope == CacheOnly ==> de == Cleared(old(de), ["cache"])
      ensures ok && flags.de && scope == CodeCacheOnly ==> de == Cleared(old(de), ["code_cache"])
      ensures ok && scope == Everything ==>
                (flags.ce ==> Contents(ce) == map[]) && (flags.de ==> Contents(de) == map[])
      ensures clock >= old(clock) && (ok <==> Sound(old(clock), clock))
    {
      ok := true;
      if flags.ce {
        var path := ScopePath(names, scope);
        if Exists(ce, path) {
          var o := Call();
          ce := Deleted(ce, path, o);
          if o != Done {
            ok := false;
          }
        }
      }
      if flags.de {
        var path := ScopePath(DE_NAMES, scope);
        if Exists(de, path) {
          var o := Call();
          de := Deleted(de, path, o);
          if o != Done {
            ok := false;
          }
        }
      }
    }

    /** The DE part of a snapshot, before any cache is cleared. */
    method SnapshotDe() returns (status: Status)
      modifies this`clock, this`deSnap
      ensures clock >= old(clock) && (status.Taken? <==> Sound(old(clock), clock))
      ensures status.Taken? ==> deSnap == if de.Present? then de else Emptied(old(deSnap))
      ensures status.Refused? ==> Lost(old(deSnap), deSnap, [])
      ensures status == Undone(true) ==> deSnap.Missing?
      ensures status == Undone(false) ==> clock > 0 && calls(clock - 1) != Done
    {
      var o := Call();
      if o != Done {
        return Refused;
      }
      o := Call();
      deSnap := Deleted(deSnap, [], o);
      if o != Done {
        return Refused;
      }
      DeletedAll(old(deSnap));
      if de.Present? {
        o := Call();
        deSnap := Copied(de.files, deSnap, o);
      }
      if o != Done {
        o := Call();
        deSnap := Removed(deSnap, o);
        return Undone(o.Done?);
      }
      return Taken;
    }

    /** The CE part, once caches are cleared; the CE data exists. */
    method SnapshotCe(wantsInode: bool) returns (status: Status)
      requires ce.Present?
      modifies this`clock, this`ceSnap
      ensures clock >= old(clock) && (status.Taken? <==> Sound(old(clock), clock))
      ensures status.Taken? ==> ceSnap == ce
      ensures status.Refused? ==> Lost(old(ceSnap), ceSnap, [])
      ensures status == Undone(true) ==> ceSnap.Missing?
      ensures status == Undone(false) ==> clock > 0 && calls(clock - 1) != Done
    {
      var o := Call();
      if o != Done {
        return Refused;
      }
      o := Call();
      ceSnap := Deleted(ceSnap, [], o);
      if o != Done {
        return Refused;
      }
      DeletedAll(old(ceSnap));
      o := Call();
      ceSnap := Copied(ce.files, ceSnap, o);
      if o == Done && wantsInode {
        o := Call();
      }
      if o != Done {
        o := Call();
        ceSnap := Removed(ceSnap, o);
        return Undone(o.Done?);
      }
      return Taken;
    }

    /** Clearing both kinds of cache; a snapshot goes on when that fails. */
    method ClearCaches(flags: Flags) returns (uncached: bool)
      modifies this`clock, this`ce, this`de
      ensures OnlyCachesLost(old(ce), ce, names) && OnlyCachesLost(old(de), de, DE_NAMES)
      ensures (!flags.ce ==> ce == old(ce)) && (!flags.de ==> de == old(de))
      ensures ce.Present? <==> old(ce).Present?
      ensures uncached && flags.ce ==> ce == Uncached(old(ce), names)
      ensures clock >= old(clock) && (uncached <==> Sound(old(clock), clock))
    {
      hide Lost, OnlyCachesLost, Cleared;
      var cache := ClearAppData(flags, CacheOnly);
      ghost var ce1, de1 := ce, de;
      var codeCache := ClearAppData(flags, CodeCacheOnly);
      LostBoth(old(ce), ce1, ce, names);
      LostBoth(old(de), de1, de, DE_NAMES);
      uncached := cache && codeCache;
    }

    /** `torn` says that a copy that failed could not be deleted again. */
    method SnapshotAppData(flags: Flags, wantsInode: bool) returns (ok: bool, uncached: bool, torn: bool)
      modifies this`clock, this`ce, this`de, this`ceSnap, this`deSnap
      ensures Snapshotted(old(Now()), Now(), flags, names, ok, uncached)
      ensures !torn ==> NoFragment(old(deSnap), deSnap, old(de)) && NoFragment(old(ceSnap), ceSnap, ce)
      ensures torn ==> !ok && clock > 0 && calls(clock - 1) != Done
      ensures clock >= old(clock)
      ensures Sound(old(clock), clock) ==> ok && (uncached <==> old(ce).Present?)
    {
      hide Lost, OnlyCachesLost, Uncached, Emptied;
      NothingLost(ce, names);
      NothingLost(de, DE_NAMES);
      NothingLost(ceSnap, names);
      NothingLost(deSnap, names);
      uncached, torn := false, false;
      if flags.de {
        var status := SnapshotDe();
        if !status.Taken? {
          return false, false, status == Undone(false);
        }
      }
      if ce.Missing? {
        return true, false, false;
      }
      uncached := ClearCaches(flags);
      if flags.ce {
        var status := SnapshotCe(wantsInode);
        if !status.Taken? {
          return false, uncached, status == Undone(false);
        }
      }
      return true, uncached, false;
    }

    /** Copying a snapshot back over cleared data, and dropping it. */
    method RestoreCe() returns (ok: bool, dropped: bool)
      requires ceSnap.Present? && Contents(ce) == map[]
      modifies this`clock, this`ce, this`ceSnap
      ensures ok ==> ce == old(ceSnap) && (dropped ==> ceSnap.Missing?)
      ensures !ok ==> ceSnap == old(ceSnap)
      ensures clock >= old(clock) && (ok && dropped <==> Sound(old(clock), clock))
    {
      var o := Call();
      ce := Copied(ceSnap.files, ce, o);
      if o != Done {
        return false, false;
      }
      assert map[] + ceSnap.files == ceSnap.files;
      o := Call();
      ceSnap := Removed(ceSnap, o);
      return true, o.Done?;
    }

    method RestoreDe() returns (ok: bool, dropped: bool)
      requires deSnap.Present? && Contents(de) == map[]
      modifies this`clock, this`de, this`deSnap
      ensures ok ==> de == old(deSnap) && (dropped ==> deSnap.Missing?)
      ensures !ok ==> deSnap == old(deSnap)
      ensures clock >= old(clock) && (ok && dropped <==> Sound(old(clock), clock))
    {
      var o := Call();
      de := Copied(deSnap.files, de, o);
      if o != Done {
        return false, false;
      }
      assert map[] + deSnap.files == deSnap.files;
      o := Call();
      deSnap := Removed(deSnap, o);
      return true, o.Done?;
    }

    /**
      When DE cannot be copied back, restored CE data is deleted again.  `stage`
      is how far the restore got.
     */
    method RestoreAppDataSnapshot(flags: Flags) returns (ok: bool, dropped: bool, stage: Stage)
      modifies this`clock, this`ce, this`de, this`ceSnap, this`deSnap
      ensures Restored(old(Now()), Now(), flags, ok, dropped)
      ensures !ok && (stage.Clearing? || stage.CopyingCe?) ==> ceSnap == old(ceSnap) && deSnap == old(deSnap)
      ensures !ok && stage.Clearing? ==> Lost(old(ce), ce, []) && Lost(old(de), de, [])
      ensures !ok && stage.CopyingDe? ==>
                && deSnap == old(deSnap)
                && (NeedsCe(old(Now()), flags) ==> ce.Missing? || (clock > 0 && calls(clock - 1) != Done))
                && (NeedsCe(old(Now()), flags) && dropped ==> ceSnap.Missing?)
                && (dropped ==>
                      (Repeatable(old(Now()), Now(), flags) <==>
                       !NeedsCe(old(Now()), flags) || Contents(old(ceSnap)) == map[]))
      ensures !ok && (stage.Clearing? || stage.CopyingCe? || (stage.Labelling? && dropped)) ==>
                Repeatable(old(Now()), Now(), flags)
      ensures !ok && stage.Labelling? ==> Restored(old(Now()), Now(), flags, true, dropped)
      ensures clock >= old(clock) && (ok && dropped <==> Sound(old(clock), clock))
    {
      dropped, stage := true, Clearing;
      var needsCe := flags.ce && ceSnap.Present?;
      var needsDe := flags.de && deSnap.Present?;
      if !needsCe && !needsDe {
        return true, true, Clearing;
      }
      ok := ClearAppData(flags, Everything);
      if !ok {
        return;
      }
      DeletedAll(old(ce));
      DeletedAll(old(de));
      hide Copied, Deleted, Cleared, Lost;
      if needsCe {
        stage := CopyingCe;
        ok, dropped := RestoreCe();
        if !ok {
          return;
        }
      }
      if needsDe {
        stage := CopyingDe;
        var droppedDe;
        ok, droppedDe := RestoreDe();
        if !ok {
          if needsCe {
            var o := Call();
            ce := Removed(ce, o);
          }
          return;
        }
        dropped := dropped && droppedDe;
      }
      stage := Labelling;
      var o := Call();
      ok := o.Done?;
    }
  }

  lemma {:induction false} DeletedAll(s: Store)
    ensures Deleted(s, [], Done) == Cleared(s, []) == Emptied(s)
  {
  }

  lemma {:induction false} NothingLost(s: Store, names: Names)
    ensures OnlyCachesLost(s, s, names) && Lost(s, s, []) && Lost(s, Emptied(s), [])
  {
  }

  lemma {:induction false} LostBoth(a: Store, b: Store, c: Store, names: Names)
    requires Lost(a, b, [names.cache]) && Lost(b, c, [names.codeCache])
    ensures OnlyCachesLost(a, c, names) && (a.Present? <==> c.Present?)
  {
  }

  // ----- the round trip

  /** The app may write its data as it likes, but not the snapshots. */
  ghost predicate AppWrites(a: Device, b: Device) {
    b.ceSnap == a.ceSnap && b.deSnap == a.deSnap
  }

  /**
    After a snapshot and a restore that both succeed, DE data is what it was
    when the snapshot was asked for and CE data what it was when copied, with
    nothing lost but what its cache directories held.
   */
  lemma {:induction false} RoundTrip(before: Device, mid: Device, written: Device, after: Device, flags: Flags,
                                     names: Names, uncached: bool, dropped: bool)
    requires Snapshotted(before, mid, flags, names, true, uncached) && AppWrites(mid, written)
    requires Restored(written, after, flags, true, dropped)
    ensures flags.de && before.de.Present? ==> after.de == before.de && (dropped ==> after.deSnap.Missing?)
    ensures flags.ce && before.ce.Present? ==>
              && after.ce == mid.ce && OnlyCachesLost(before.ce, after.ce, names)
              && (uncached ==> after.ce == Uncached(before.ce, names))
              && (dropped ==> after.ceSnap.Missing?)
    ensures flags.ce && before.ce.Present? && uncached && Rooted(before.ce) ==>
              forall q :: q in Contents(after.ce) <==>
                          q in Contents(before.ce) && !([names.cache] < q) && !([names.codeCache] < q)
    ensures !flags.de ==> after.de == written.de
    ensures !flags.ce ==> after.ce == written.ce
  {
    if Rooted(before.ce) {
      forall q
        ensures q in Contents(Uncached(before.ce, names)) <==>
                q in Contents(before.ce) && !([names.cache] < q) && !([names.codeCache] < q)
      {
        UncachedExactly(before.ce, names, q);
      }
    }
    hide Uncached, Rooted;
  }

  /** Every successful restore, whatever the app wrote in between, gives DE data back. */
  ghost predicate GivesBackDe(before: Device, mid: Device, flags: Flags) {
    forall written, after, dropped ::
      AppWrites(mid, written) && Restored(written, after, flags, true, dropped) ==>
        Contents(after.de) == Contents(before.de)
  }

  ghost predicate GivesBackCe(mid: Device, flags: Flags) {
    forall written, after, dropped ::
      AppWrites(mid, written) && Restored(written, after, flags, true, dropped) ==>
        Contents(after.ce) == Contents(mid.ce)
  }

  /** There was DE data, or some snapshot directory will make the restore clear it. */
  predicate DeCovered(before: Device, flags: Flags) {
    before.de.Present? || before.deSnap.Present? || (flags.ce && (before.ce.Present? || before.ceSnap.Present?))
  }

  /** There was CE data, or an older CE snapshot is empty, or there is none and DE makes the restore clear CE. */
  predicate CeCovered(before: Device, flags: Flags) {
    || before.ce.Present?
    || (if before.ceSnap.Present? then before.ceSnap.files == map[]
        else flags.de && (before.de.Present? || before.deSnap.Present?))
  }

  function Scribbled(): Store {
    Present(map[["x"] := Regular(0, [])])
  }

  /** Data that was missing is not always missing again: when a restore has nothing to do it stays as written. */
  lemma {:induction false} DeComesBackExactly(before: Device, mid: Device, flags: Flags, names: Names, uncached: bool)
    requires flags.de && Snapshotted(before, mid, flags, names, true, uncached)
    ensures GivesBackDe(before, mid, flags) <==> DeCovered(before, flags)
  {
    if !DeCovered(before, flags) {
      var written := mid.(de := Scribbled());
      assert AppWrites(mid, written) && Restored(written, written, flags, true, true);
      assert ["x"] in Contents(written.de);
    }
  }

  /** A missing CE directory leaves an older snapshot of the same id in place, and the restore brings that back. */
  lemma {:induction false} CeComesBackExactly(before: Device, mid: Device, flags: Flags, names: Names, uncached: bool)
    requires flags.ce && Snapshotted(before, mid, flags, names, true, uncached)
    ensures GivesBackCe(mid, flags) <==> CeCovered(before, flags)
  {
    if !CeCovered(before, flags) {
      if before.ceSnap.Present? {
        var de := if !flags.de then mid.de else if mid.deSnap.Present? then mid.deSnap else Emptied(mid.de);
        var after := Device(mid.ceSnap, de, Missing, if flags.de then Missing else mid.deSnap);
        assert AppWrites(mid, mid) && Restored(mid, after, flags, true, true);
        assert Contents(after.ce) != Contents(mid.ce);
      } else {
        var written := mid.(ce := Scribbled());
        assert AppWrites(mid, written) && Restored(written, written, flags, true, true);
        assert ["x"] in Contents(written.ce);
      }
    }
  }

  /** An app without CE data gets a file of an earlier snapshot back, although every call succeeds. */
  method StaleSnapshot(names: Names) returns (snapshotOk: bool, restoreOk: bool, after: Device)
    ensures snapshotOk && restoreOk
    ensures after == Device(Present(map[["a"] := Regular(0, [7])]), Missing, Missing, Missing)
  {
    var earlier := Present(map[["a"] := Regular(0, [7])]);
    var flags := Flags(true, false);
    var data := new AppData(Device(Missing, Missing, earlier, Missing), names, k => Done);
    var uncached, torn, dropped, stage;
    snapshotOk, uncached, torn := data.SnapshotAppData(flags, true);
    restoreOk, dropped, stage := data.RestoreAppDataSnapshot(flags);
    after := data.Now();
  }

  /** An app without DE data keeps what it writes after the snapshot, although every call succeeds. */
  method NothingRestored(names: Names) returns (snapshotOk: bool, restoreOk: bool, after: Device)
    ensures snapshotOk && restoreOk
    ensures after == Device(Missing, Scribbled(), Missing, Missing)
  {
    var flags := Flags(false, true);
    var data := new AppData(Device(Missing, Missing, Missing, Missing), names, k => Done);
    var uncached, torn, dropped, stage;
    snapshotOk, uncached, torn := data.SnapshotAppData(flags, true);
    data.de := Scribbled();
    restoreOk, dropped, stage := data.RestoreAppDataSnapshot(flags);
    after := data.Now();
  }

  /** Once its snapshots are dropped, a restore can be repeated without effect. */
  lemma {:induction false} RestoreIsFinal(a: Device, b: Device, c: Device, flags: Flags, ok: bool, dropped: bool)
    requires Restored(a, b, flags, true, true) && Restored(b, c, flags, ok, dropped)
    requires NeedsCe(a, flags) || NeedsDe(a, flags)
    ensures ok && c == b
  {
  }

  /** A whole cycle on one object: snapshot, whatever the app writes, restore. */
  method Cycle(data: AppData, flags: Flags, wantsInode: bool, ce: Store, de: Store) returns (ok: bool, dropped: bool)
    modifies data
    ensures ok && flags.de && old(data.de.Present?) ==> data.de == old(data.de)
    ensures ok && flags.ce && old(data.ce.Present?) ==> OnlyCachesLost(old(data.ce), data.ce, data.names)
    ensures ok && dropped && flags.de && old(data.de.Present?) ==> data.deSnap.Missing?
    ensures ok && dropped && flags.ce && old(data.ce.Present?) ==> data.ceSnap.Missing?
    ensures data.clock >= old(data.clock) && (data.Sound(old(data.clock), data.clock) ==> ok && dropped)
  {
    dropped := false;
    ghost var before := data.Now();
    var uncached, torn;
    ok, uncached, torn := data.SnapshotAppData(flags, wantsInode);
    if ok {
      ghost var mid := data.Now();
      data.ce, data.de := ce, de;
      ghost var written := data.Now();
      var stage;
      ok, dropped, stage := data.RestoreAppDataSnapshot(flags);
      if ok {
        RoundTrip(before, mid, written, data.Now(), flags, data.names, uncached, dropped);
      }
    }
  }
}

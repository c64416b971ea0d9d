/**
  move_ab: replacing the compiled artifacts of an app (A) by those prepared for
  the other slot (B), three files moved one after the other, any call failing.
 */
module MoveAb {

  /** What stat sees at a path. */
  datatype Node = Absent | Regular(content: int) | Special

  datatype Artifacts = Artifacts(oat: Node, vdex: Node, image: Node)

  datatype Disk = Disk(a: Artifacts, b: Artifacts)

  datatype Kind = Oat | Vdex | Image

  function At(x: Artifacts, k: Kind): Node {
    match k
    case Oat => x.oat
    case Vdex => x.vdex
    case Image => x.image
  }

  function With(x: Artifacts, k: Kind, n: Node): Artifacts {
    match k
    case Oat => x.(oat := n)
    case Vdex => x.(vdex := n)
    case Image => x.(image := n)
  }

  predicate Movable(d: Disk, k: Kind) {
    At(d.b, k).Regular? && !At(d.a, k).Special?
  }

  /** Only the two files of kind `k` differ. */
  ghost predicate OnlyAt(d: Disk, d': Disk, k: Kind) {
    d'.a == With(d.a, k, At(d'.a, k)) && d'.b == With(d.b, k, At(d'.b, k))
  }

  /** One file moved, or not; `sound` says that no call failed. */
  ghost predicate PathMoved(d: Disk, d': Disk, k: Kind, ok: bool, sound: bool) {
    && OnlyAt(d, d', k)
    && (ok ==> At(d.b, k).Regular? && At(d'.a, k) == At(d.b, k) && At(d'.b, k) == Absent)
    && (!ok ==> At(d'.a, k) == At(d.a, k) || (At(d.a, k).Regular? && At(d'.a, k) == Absent))
    && (sound ==> (ok <==> Movable(d, k)) && At(d'.b, k) == Absent && (!ok ==> At(d'.a, k) == At(d.a, k)))
  }

  /**
    What a move leaves: on success A's oat and vdex are what B's were, and its
    image is B's, or absent, or the old one if even that could not be deleted.
   */
  ghost predicate Moved(d: Disk, d': Disk, ok: bool, sound: bool) {
    && (ok ==>
          && d.b.oat.Regular? && d.b.vdex.Regular?
          && d'.a.oat == d.b.oat && d'.a.vdex == d.b.vdex && d'.b.oat == Absent && d'.b.vdex == Absent
          && (d'.a.image == d.b.image || d'.a.image == Absent || d'.a.image == d.a.image)
          && (sound ==> d'.a.image == if Movable(d, Image) then d.b.image else Absent))
    && (!ok ==> d'.a.image == d.a.image)
    && (sound ==>
          && (ok <==> Movable(d, Oat) && Movable(d, Vdex))
          && d'.b == Artifacts(Absent, Absent, Absent)
          && (!ok ==> d'.a.vdex == d.a.vdex && d'.a.oat == if Movable(d, Oat) then d.b.oat else d.a.oat))
  }

  /** Either A's oat and vdex are both B's, or both are what they were. */
  predicate Whole(d: Disk, d': Disk) {
    || (d'.a.oat == d.b.oat && d'.a.vdex == d.b.vdex)
    || (d'.a.oat == d.a.oat && d'.a.vdex == d.a.vdex)
  }

  /**
    When no call fails the pair stays whole unless the oat file could be moved,
    was different, and the vdex could not.
   */
  lemma {:induction false} WholeExactly(d: Disk, d': Disk, ok: bool)
    requires Moved(d, d', ok, true)
    ensures Whole(d, d') <==> !(Movable(d, Oat) && !Movable(d, Vdex) && d.a.oat != d.b.oat && d.a.vdex != d.b.vdex)
  {
    if Movable(d, Oat) && !Movable(d, Vdex) {
      assert d'.a.oat == d.b.oat && d'.a.vdex == d.a.vdex;
    }
  }

  /** A missing vdex file for B leaves the new oat file beside the old vdex file. */
  lemma {:induction false} TornMove()
    ensures var d := Disk(Artifacts(Regular(1), Regular(2), Absent), Artifacts(Regular(3), Absent, Absent));
            var d' := Disk(Artifacts(Regular(3), Regular(2), Absent), Artifacts(Absent, Absent, Absent));
            Moved(d, d', false, true) && !Whole(d, d')
  {
  }

  class Slots {
    const calls: nat -> bool
    var clock: nat
    var disk: Disk

    constructor (disk: Disk, calls: nat -> bool)
      ensures this.disk == disk && this.calls == calls && clock == 0
    {
      this.disk, this.calls, clock := disk, calls, 0;
    }

    /** No call between two moments failed. */
    ghost predicate Sound(from: nat, to: nat) {
      forall k :: from <= k < to ==> calls(k)
    }

    method Call() returns (ok: bool)
      modifies this`clock
      ensures clock == old(clock) + 1 && ok == calls(old(clock))
    {
      ok := calls(clock);
      clock := clock + 1;
    }

    method UnlinkB(k: Kind)
      modifies this`clock, this`disk
      ensures clock == old(clock) + 1
      ensures disk == if calls(old(clock)) then old(disk).(b := With(old(disk).b, k, Absent)) else old(disk)
    {
      var ok := Call();
      if ok {
        disk := disk.(b := With(disk.b, k, Absent));
      }
    }

    /** A rename replaces what is at the target, unless that is a directory or the like. */
    method UnlinkAndRename(k: Kind) returns (ok: bool)
      requires At(disk.b, k).Regular?
      modifies this`clock, this`disk
      ensures clock > old(clock) && OnlyAt(old(disk), disk, k)
      ensures ok ==> At(disk.a, k) == At(old(disk).b, k) && At(disk.b, k) == Absent
      ensures !ok ==> disk.b == old(disk).b
                      && (disk.a == old(disk).a || (At(old(disk).a, k).Regular? && At(disk.a, k) == Absent))
      ensures Sound(old(clock), clock) ==> (ok <==> Movable(old(disk), k)) && (!ok ==> disk == old(disk))
    {
      var seen := Call();
      if seen && At(disk.a, k) != Absent {
        if At(disk.a, k).Special? {
          return false;
        }
        var gone := Call();
        if !gone {
          return false;
        }
        disk := disk.(a := With(disk.a, k, Absent));
      }
      ok := Call();
      if ok && At(disk.a, k).Special? {
        ok := false;
      }
      if ok {
        disk := Disk(With(disk.a, k, At(disk.b, k)), With(disk.b, k, Absent));
      }
    }

    method MovePath(k: Kind) returns (ok: bool)
      modifies this`clock, this`disk
      ensures clock > old(clock) && PathMoved(old(disk), disk, k, ok, Sound(old(clock), clock))
    {
      var seen := Call();
      if !seen || At(disk.b, k) == Absent {
        return false;
      }
      if At(disk.b, k).Special? {
        UnlinkB(k);
        return false;
      }
      ok := UnlinkAndRename(k);
      if !ok {
        UnlinkB(k);
      }
    }

    method Move() returns (ok: bool)
      modifies this`clock, this`disk
      ensures Moved(old(disk), disk, ok, Sound(old(clock), clock))
    {
      ok := MovePath(Oat);
      if !ok {
        UnlinkB(Vdex);
        UnlinkB(Image);
        return;
      }
      ok := MovePath(Vdex);
      if !ok {
        UnlinkB(Image);
        return;
      }
      var image := MovePath(Image);
      if !image {
        var gone := Call();
        if gone {
          disk := disk.(a := disk.a.(image := Absent));
        }
      }
    }
  }
}

/** Looking a path up on one disk, the host's, where symbolic links may be on the way. */
module PathLookup {
  import opened Replies
  import opened Trees

  /** The snapshot is kept in a directory of the host. A link in it may lead back into it or, if it is an absolute
      one, to the host; and a link of the host may lead into the snapshot. */
  datatype Side = OnHost | InSnapshot

  datatype Place = Place(side: Side, path: Path)

  datatype Disk = Disk(host: Tree, lower: Tree) {
    function On(side: Side): Tree {
      if side.OnHost? then host else lower
    }

    function With(side: Side, t: Tree): Disk {
      if side.OnHost? then this.(host := t) else this.(lower := t)
    }

    ghost predicate Valid() {
      WellFormed(host) && WellFormed(lower)
    }
  }

  /** Where a link leads, with the disk as it is at that moment; it may be anywhere, so nothing is assumed of it. */
  type Follow = (Disk, Place) -> Place

  predicate IsLink(k: Disk, r: Place) {
    r.path in k.On(r.side) && k.On(r.side)[r.path].Link?
  }

  /** A place reached, or what it leads to if it is a link. */
  function Target(k: Disk, follow: Follow, r: Place): Place {
    if IsLink(k, r) then follow(k, r) else r
  }

  /** The place that a path stands for: every link above its last component is followed. */
  function Real(k: Disk, follow: Follow, side: Side, p: Path): Place {
    match p
    case Root => Place(side, Root)
    case Child(q, n) =>
      var above := Target(k, follow, Real(k, follow, side, q));
      Place(above.side, Child(above.path, n))
  }

  /** No link lies strictly above the path. */
  ghost predicate NoLinkAbove(t: Tree, p: Path) {
    forall a :: Below(p, a) && a in t ==> !t[a].Link?
  }

  /** Without links on the way a path stands for itself, wherever links lead. */
  lemma {:induction false} RealIsSelf(k: Disk, follow: Follow, side: Side, p: Path)
    requires NoLinkAbove(k.On(side), p)
    ensures Real(k, follow, side, p) == Place(side, p)
  {
    if p.Child? {
      forall a | Below(p.parent, a) && a in k.On(side) ensures !k.On(side)[a].Link? {
        assert Below(p, a);
      }
      RealIsSelf(k, follow, side, p.parent);
      assert Below(p, p.parent);
    }
  }

  /** Nothing is assumed to be above the last component but directories, if the path itself is there. */
  lemma StandsForItself(k: Disk, follow: Follow, side: Side, d: Path)
    requires WellFormed(k.On(side)) && d in k.On(side)
    ensures Real(k, follow, side, d) == Place(side, d)
  {
    forall a | Below(d, a) && a in k.On(side) ensures !k.On(side)[a].Link? {
      AncestorsAreDirs(k.On(side), d, a);
      BelowIsStrict(d, a);
    }
    RealIsSelf(k, follow, side, d);
  }
}

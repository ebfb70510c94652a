/** The layers as they lie on disk: two trees of nodes and a tree of whiteout markers. */
module PathOverlays {
  import opened Replies
  import opened Trees
  import opened PlainTree
  import opened WhiteoutStore
  import opened OverlayRefinement
  import S = OverlayState

  datatype Source = Upper | Lower

  datatype Lookup = Found(node: Node, source: Source) | Whiteout(marker: Path) | Missing

  /** No path of the tree uses the reserved marker name. */
  ghost predicate CleanPaths(t: Tree) {
    forall p :: p in t ==> Clean(p)
  }

  /** create_dir_all above a clean path makes clean paths only. */
  lemma DirsMadeClean(t: Tree, d: Path)
    requires WellFormed(t) && CleanPaths(t) && Clean(d) && CreateDirAll(t, d).Ok?
    ensures CleanPaths(CreateDirAll(t, d).value)
  {
    CreateDirAllEffect(t, d);
    var u := CreateDirAll(t, d).value;
    forall q | q in u ensures Clean(q) {
      assert Get(u, q) == Some(u[q]);
      if q !in t {
        CleanAbove(d, q);
      }
    }
  }

  /** Nothing above a path whose parent is visible is deleted. */
  lemma NothingGoneAbove(s: S.State, p: Path)
    requires S.Inv(s) && p.Child? && p.parent in S.View(s)
    ensures forall a :: Below(p, a) ==> a !in s.gone
  {
    S.ViewIsShow(s);
    forall a | Below(p, a) ensures a !in s.gone {
      AncestorsAreDirs(S.View(s), p.parent, a);
      assert Get(S.View(s), a) == S.Show(s, a);
    }
  }

  /** How a method's outcome and the layers it leaves fit an operation on the layers. */
  ghost predicate Matches<T>(r: Reply<T>, before: S.State, after: S.State, spec: Reply<S.State>) {
    match spec
    case Ok(t) => r.Ok? && after == t
    case Err(e) => r == Err(e) && after == before
  }

  class PathOverlay {
    var lower: Tree
    var upper: Tree
    var whiteouts: Tree
    const links: S.Links

    ghost function Layers(): S.State
      reads this
    {
      S.State(lower, upper, WhiteoutSet(whiteouts), links)
    }

    ghost predicate Valid()
      reads this
    {
      StoreOk(whiteouts) && S.Inv(Layers()) && CleanPaths(lower) && CleanPaths(upper)
    }

    /** The layers of a new env */
    constructor (snapshot: Tree, links: S.Links)
      requires WellFormed(snapshot) && CleanPaths(snapshot)
      ensures Valid() && Layers() == S.State(snapshot, map[Root := Dir(DEFAULT_DIR_MODE)], {}, links)
    {
      this.links := links;
      lower := snapshot;
      upper := map[Root := Dir(DEFAULT_DIR_MODE)];
      whiteouts := map[Root := Dir(DEFAULT_DIR_MODE)];
      new;
      assert StoredProperly(whiteouts, Root);
      WhiteoutSetMeans(whiteouts, Root);
    }

    /** resolve */
    function Resolve(p: Path): Reply<Lookup>
      reads this
    {
      match MarkerPath(whiteouts, p)
      case Err(e) => Err(e)
      case Ok(Some(m)) => Ok(Whiteout(m))
      case Ok(None) =>
        if S.Exists(upper, links, p) then Ok(Found(upper[p], Upper))
        else
          match S.LowerFound(lower, links, p)
          case Some(n) => Ok(Found(n, Lower))
          case None => Ok(Missing)
    }

    /** At a path the store can be asked about, resolve answers what the layers and their links have there. */
    lemma ResolveFinds(p: Path)
      requires StoreOk(whiteouts) && Clean(p) && !Blocked(whiteouts, p)
      ensures Resolve(p).Ok?
      ensures S.Found(Layers(), p) == if Resolve(p).value.Found? then Some(Resolve(p).value.node) else None
      ensures Resolve(p).value.Whiteout? <==> p in WhiteoutSet(whiteouts)
      ensures Resolve(p).value.Whiteout? ==> Resolve(p).value.marker == MarkerPlace(whiteouts, p)
      ensures Resolve(p).value.Found? && Resolve(p).value.source == Upper ==>
                p in upper && Resolve(p).value.node == upper[p]
      ensures Resolve(p).value.Found? && Resolve(p).value.source == Lower ==>
                S.LowerFound(lower, links, p) == Some(Resolve(p).value.node) && !S.Exists(upper, links, p)
    {
      WhiteoutSetMeans(whiteouts, p);
    }

    /** create_whiteout: inserts one path into the deleted set. */
    method CreateWhiteout(p: Path) returns (r: Reply<()>)
      requires StoreOk(whiteouts) && Clean(p)
      modifies this`whiteouts
      ensures StoreOk(whiteouts)
      ensures r.Ok? <==> !Blocked(old(whiteouts), p)
      ensures WhiteoutSet(whiteouts) == if r.Ok? then old(WhiteoutSet(whiteouts)) + {p} else old(WhiteoutSet(whiteouts))
      ensures if r.Ok? then MarkerStored(old(whiteouts), p, whiteouts) else whiteouts == old(whiteouts)
    {
      BlockedMeans(whiteouts, p);
      if IsDir(whiteouts, p) {
        DirectoryMarked(whiteouts, p);
        var written := WriteWhole(whiteouts, Child(p, MARKER), MARKER_CONTENT, NEW_FILE_MODE);
        if written.Err? {
          return Err(Io);
        }
        whiteouts := written.value;
        return Ok(());
      }
      CreateDirAllEffect(whiteouts, p.parent);
      BlockedMeans(whiteouts, p.parent);
      var made := CreateDirAll(whiteouts, p.parent);
      if made.Err? {
        return Err(made.errno);
      }
      PathMarked(whiteouts, p);
      whiteouts := made.value;
      var written := WriteWhole(whiteouts, p, [], NEW_FILE_MODE);
      if written.Err? {
        return Err(Io);
      }
      whiteouts := written.value;
      return Ok(());
    }

    /** remove_whiteout: deletes one path from the deleted set. */
    method RemoveWhiteout(p: Path) returns (r: Reply<()>)
      requires StoreOk(whiteouts) && Clean(p)
      modifies this`whiteouts
      ensures StoreOk(whiteouts)
      ensures r.Ok? <==> !Blocked(old(whiteouts), p)
      ensures WhiteoutSet(whiteouts) == if r.Ok? then old(WhiteoutSet(whiteouts)) - {p} else old(WhiteoutSet(whiteouts))
      ensures whiteouts == if r.Ok? && p in old(WhiteoutSet(whiteouts))
                           then old(whiteouts) - {MarkerPlace(old(whiteouts), p)} else old(whiteouts)
    {
      WhiteoutSetMeans(whiteouts, p);
      var marker := MarkerPath(whiteouts, p);
      match marker {
        case Err(e) => return Err(e);
        case Ok(None) => return Ok(());
        case Ok(Some(m)) =>
          var removed := RemoveFile(whiteouts, m);
          MarkerRemoved(whiteouts, p, whiteouts - {m});
          r := match removed case Ok(_) => Ok(()) case Err(e) => Err(e);
          whiteouts := match removed case Ok(w) => w case Err(_) => whiteouts;
      }
    }

    /** The first half of rename: the node is in `upper` already and moves there. */
    method MoveUpper(from: Path, to: Path) returns (r: Reply<()>)
      requires StoreOk(whiteouts) && Clean(from) && Clean(to) && from != to
      requires from in upper && !upper[from].Dir? && to.Child? && IsDir(upper, to.parent) && !IsDir(upper, to)
      requires forall a :: Below(from, a) || Below(to, a) ==> a !in WhiteoutSet(whiteouts)
      modifies this`upper, this`whiteouts
      ensures StoreOk(whiteouts) && r.Ok?
      ensures upper == (old(upper) - {from})[to := old(upper)[from]]
      ensures WhiteoutSet(whiteouts) == if S.LowerFound(lower, links, from).Some?
              then old(WhiteoutSet(whiteouts)) - {to} + {from}
                                        else old(WhiteoutSet(whiteouts)) - {to} - {from}
    {
      var fromLowerExists := S.LowerFound(lower, links, from).Some?;
      var renamed := RenameLeaf(upper, from, to);
      upper := renamed.value;
      r := MoveWhiteouts(from, to, fromLowerExists);
    }

    /** What a rename does to the store: the target's whiteout goes, and the source has one as given. */
    method MoveWhiteouts(from: Path, to: Path, marked: bool) returns (r: Reply<()>)
      requires StoreOk(whiteouts) && Clean(from) && Clean(to) && from != to
      requires forall a :: Below(from, a) || Below(to, a) ==> a !in WhiteoutSet(whiteouts)
      modifies this`whiteouts
      ensures StoreOk(whiteouts) && r.Ok?
      ensures WhiteoutSet(whiteouts) == if marked then old(WhiteoutSet(whiteouts)) - {to} + {from}
                                        else old(WhiteoutSet(whiteouts)) - {to} - {from}
    {
      ReachableUnlessDeletedAbove(whiteouts, to);
      var cleared := RemoveWhiteout(to);
      ReachableUnlessDeletedAbove(whiteouts, from);
      if marked {
        r := CreateWhiteout(from);
      } else {
        r := RemoveWhiteout(from);
      }
    }

    /** The second half of rename: the node is copied up from `lower` to its new path. */
    method CopyLower(from: Path, to: Path) returns (r: Reply<()>)
      requires StoreOk(whiteouts) && Clean(from) && Clean(to) && from != to
      requires WellFormed(lower) && from !in upper && from in lower && from !in WhiteoutSet(whiteouts)
               && !lower[from].Dir?
      requires lower[from].Link? ==> from !in links.dead
      requires WellFormed(upper) && to.Child? && IsDir(upper, to.parent) && !IsDir(upper, to)
      requires forall a :: Below(from, a) || Below(to, a) ==> a !in WhiteoutSet(whiteouts)
      modifies this`upper, this`whiteouts
      ensures StoreOk(whiteouts)
      ensures r.Err? ==> r == Err(Io)
      ensures r.Ok? <==> S.CopyOnto(old(upper), links, to, lower[from]).Ok?
      ensures r.Ok? ==> Ok(upper) == S.CopyOnto(old(upper), links, to, lower[from])
                        && WhiteoutSet(whiteouts) == old(WhiteoutSet(whiteouts)) - {to} + {from}
      ensures r.Err? ==> upper == old(upper) && whiteouts == old(whiteouts)
    {
      ReachableUnlessDeletedAbove(whiteouts, from);
      WhiteoutSetMeans(whiteouts, from);
      BlockedMeans(upper, to);
      BlockedMeans(upper, to.parent);
      ExistsStraight(lower, from);
      var found := Resolve(from);
      var node := found.value.node;
      var copied :=
        if node.Link? then AddNode(upper, to, node)
        else if to in upper && upper[to].Link? then S.WriteThrough(upper, links, to, node)
        else CopyFile(upper, to, node);
      CopiedOnto(upper, links, to, node);
      if copied.Err? {
        return Err(Io);
      }
      upper := copied.value;
      r := MoveWhiteouts(from, to, true);
    }

    /** rename, for a file or symbolic link */
    method Rename(from: Path, to: Path) returns (r: Reply<()>)
      requires Valid() && Clean(from) && Clean(to)
      requires Allowed(S.View(Layers()), PlainTree.Rename(from, to)) && Reachable(Layers(), PlainTree.Rename(from, to))
      modifies this`upper, this`whiteouts
      ensures Valid() && Matches(r, old(Layers()), Layers(), S.Apply(old(Layers()), PlainTree.Rename(from, to)))
    {
      ghost var s := Layers();
      RenameByHalves(s, from, to);
      RenameReachable(s, from, to);
      var made := CreateDirAll(upper, to.parent);
      if made.Err? {
        return Err(Io);
      }
      upper := made.value;
      r := MoveOrCopy(from, to);
      RenameDone(s, from, to, Layers(), r);
    }

    /** The rest of rename, once the directories above the target are made */
    method MoveOrCopy(from: Path, to: Path) returns (r: Reply<()>)
      requires StoreOk(whiteouts) && Clean(from) && Clean(to) && from != to && WellFormed(lower)
      requires WellFormed(upper) && to.Child? && IsDir(upper, to.parent) && !IsDir(upper, to)
      requires if from in upper then !upper[from].Dir? && S.Exists(upper, links, from) else from in lower
                                                                                            && !lower[from].Dir?
      requires from in lower && lower[from].Link? ==> from !in links.dead
      requires from !in WhiteoutSet(whiteouts) && forall a :: Below(from, a) || Below(to, a)
                                                              ==> a !in WhiteoutSet(whiteouts)
      modifies this`upper, this`whiteouts
      ensures StoreOk(whiteouts)
      ensures Matches(r, old(Layers()), Layers(), Halves(old(Layers()), from, to))
    {
      if S.Exists(upper, links, from) {
        r := MoveUpper(from, to);
      } else {
        r := CopyLower(from, to);
      }
    }
  }

  /** The outcome of the two halves of a rename */
  function Halves(s: S.State, from: Path, to: Path): Reply<S.State>
    requires from !in s.upper ==> from in s.lower
  {
    if from in s.upper then
      Ok(s.(upper := (s.upper - {from})[to := s.upper[from]],
            gone := S.GoneAfterMove(s, from, to)))
    else
      match S.CopyOnto(s.upper, s.links, to, s.lower[from])
      case Err(_) => Err(Io)
      case Ok(w) => Ok(s.(upper := w, gone := s.gone - {to} + {from}))
  }

  /** What the copying calls do to a target that is no directory */
  lemma CopiedOnto(u: Tree, links: S.Links, to: Path, n: Node)
    requires WellFormed(u) && to.Child? && IsDir(u, to.parent) && !IsDir(u, to) && !n.Dir?
    ensures var copied := if n.Link? then AddNode(u, to, n)
                          else if to in u && u[to].Link? then S.WriteThrough(u, links, to, n)
                          else CopyFile(u, to, n);
            && (copied.Ok? <==> S.CopyOnto(u, links, to, n).Ok?)
            && (copied.Ok? ==> copied == S.CopyOnto(u, links, to, n))
  {
    BlockedMeans(u, to);
    BlockedMeans(u, to.parent);
    if n.File? {
      assert u[to := File([], n.mode)][to := n] == u[to := n];
    }
  }

  /** The two halves of a rename, once the directories above the target are made */
  lemma RenameByHalves(s: S.State, from: Path, to: Path)
    requires S.Inv(s) && Allowed(S.View(s), PlainTree.Rename(from, to)) && Reachable(s, PlainTree.Rename(from, to))
    ensures CreateDirAll(s.upper, to.parent).Ok?
    ensures var u := CreateDirAll(s.upper, to.parent).value;
            && WellFormed(u) && IsDir(u, to.parent) && !IsDir(u, to)
            && (from in u ==> !u[from].Dir? && S.Exists(u, s.links, from))
            && (from !in u ==> from !in s.upper && from in s.lower && !s.lower[from].Dir?)
    ensures S.Apply(s, PlainTree.Rename(from, to)) == Halves(s.(upper := CreateDirAll(s.upper, to.parent).value), from,
                                                             to)
    ensures S.Apply(s, PlainTree.Rename(from, to)).Ok? ==> S.Inv(S.Apply(s, PlainTree.Rename(from, to)).value)
  {
    var op := PlainTree.Rename(from, to);
    RenameKeepsInv(s, op);
    RenameEnds(s, op);
    UpperDirsMade(s, to.parent);
    ViewAt(s, from);
    ViewAt(s, to);
    FoundStraight(s, from);
    CreateDirAllEffect(s.upper, to.parent);
  }

  /** The halves together are the rename. */
  lemma RenameDone(s: S.State, from: Path, to: Path, t: S.State, r: Reply<()>)
    requires S.Inv(s) && Allowed(S.View(s), PlainTree.Rename(from, to)) && CleanPaths(s.upper) && Clean(to)
    requires Reachable(s, PlainTree.Rename(from, to))
    requires CreateDirAll(s.upper, to.parent).Ok?
    requires var made := s.(upper := CreateDirAll(s.upper, to.parent).value);
             (from !in made.upper ==> from in s.lower) && Matches(r, made, t, Halves(made, from, to))
    ensures S.Inv(t) && CleanPaths(t.upper) && t.lower == s.lower
    ensures Matches(r, s, t, S.Apply(s, PlainTree.Rename(from, to)))
  {
    RenameByHalves(s, from, to);
    RenameEnds(s, PlainTree.Rename(from, to));
    CleanAbove(to, to.parent);
    DirsMadeClean(s.upper, to.parent);
    RenamedClean(CreateDirAll(s.upper, to.parent).value, s.links, from, to);
    if to in s.upper {
      assert CreateDirAll(s.upper, to.parent) == Ok(s.upper);
    }
  }

  lemma RenamedClean(u: Tree, links: S.Links, from: Path, to: Path)
    requires CleanPaths(u) && Clean(to)
    ensures from in u ==> CleanPaths((u - {from})[to := u[from]])
    ensures forall n: Node :: S.CopyOnto(u, links, to, n).Ok? ==> CleanPaths(S.CopyOnto(u, links, to, n).value)
  {
  }

  lemma RenameReachable(s: S.State, from: Path, to: Path)
    requires S.Inv(s) && Allowed(S.View(s), PlainTree.Rename(from, to))
    ensures forall a :: Below(from, a) || Below(to, a) ==> a !in s.gone
    ensures from !in s.gone
  {
    S.ViewIsShow(s);
    assert Get(S.View(s), from) == S.Show(s, from);
    NothingGoneAbove(s, from);
    NothingGoneAbove(s, to);
  }

  /** Making directories in the store changes no path's status. */
  /** A file is written where there is one already, or a directory to put it in. */
  lemma FileWritten(w: Tree, m: Path, data: seq<Byte>)
    requires WellFormed(w) && m.Child? && IsDir(w, m.parent) && (m in w ==> w[m].File?)
    ensures var written := WriteWhole(w, m, data, NEW_FILE_MODE);
            && written.Ok? && written.value.Keys == w.Keys + {m}
            && written.value[m].File? && written.value[m].data == data
            && forall q :: q in w && q != m ==> written.value[q] == w[q]
  {
    BlockedMeans(w, m.parent);
  }

  /** A directory of the store is marked by the reserved file in it. */
  lemma DirectoryMarked(w: Tree, p: Path)
    requires StoreOk(w) && Clean(p) && IsDir(w, p)
    ensures var written := WriteWhole(w, Child(p, MARKER), MARKER_CONTENT, NEW_FILE_MODE);
            && written.Ok? && StoreOk(written.value) && WhiteoutSet(written.value) == WhiteoutSet(w) + {p}
            && MarkerStored(w, p, written.value)
  {
    var marker := Child(p, MARKER);
    assert !Clean(marker);
    assert marker in w ==> StoredProperly(w, marker);
    FileWritten(w, marker, MARKER_CONTENT);
    var written := WriteWhole(w, marker, MARKER_CONTENT, NEW_FILE_MODE);
    MarkerAdded(w, p, written.value, marker);
    MarkerWritten(w, p, w, marker, written.value);
  }

  /** Any other path is marked by a file of its own. */
  lemma PathMarked(w: Tree, p: Path)
    requires StoreOk(w) && Clean(p) && !IsDir(w, p) && CreateDirAll(w, p.parent).Ok?
    ensures var written := WriteWhole(CreateDirAll(w, p.parent).value, p, [], NEW_FILE_MODE);
            && written.Ok? && StoreOk(written.value) && WhiteoutSet(written.value) == WhiteoutSet(w) + {p}
            && MarkerStored(w, p, written.value)
  {
    CreateDirAllEffect(w, p.parent);
    var made := CreateDirAll(w, p.parent).value;
    StoreDirsMade(w, p.parent);
    BelowIsStrict(p, p.parent);
    assert Get(made, p) == Get(w, p);
    assert p in w ==> StoredProperly(w, p);
    FileWritten(made, p, []);
    var written := WriteWhole(made, p, [], NEW_FILE_MODE);
    MarkerAdded(made, p, written.value, p);
    forall q | q in made && q !in w ensures made[q].Dir? && Below(p, q) {
      assert Get(made, q).Some?;
    }
    forall q | q in w ensures q in made && made[q] == w[q] {
      assert Get(made, q) == Get(w, q);
    }
    MarkerWritten(w, p, made, p, written.value);
  }

  lemma StoreDirsMade(w: Tree, d: Path)
    requires StoreOk(w) && Clean(d) && CreateDirAll(w, d).Ok?
    ensures StoreOk(CreateDirAll(w, d).value)
    ensures WhiteoutSet(CreateDirAll(w, d).value) == WhiteoutSet(w)
  {
    CreateDirAllEffect(w, d);
    var u := CreateDirAll(w, d).value;
    forall q | q in u ensures StoredProperly(u, q) {
      assert Get(u, q) == Some(u[q]);
      if q in w {
        assert StoredProperly(w, q);
      } else {
        CleanAbove(d, q);
      }
    }
    forall q ensures q in WhiteoutSet(u) <==> q in WhiteoutSet(w) {
      if Clean(q) {
        WhiteoutSetMeans(w, q);
        WhiteoutSetMeans(u, q);
        var m := Child(q, MARKER);
        assert Get(u, q) == if q in w then Get(w, q) else if Within(d, q) then Some(Dir(DEFAULT_DIR_MODE)) else None;
        assert Get(u, m) == if m in w then Get(w, m) else if Within(d, m) then Some(Dir(DEFAULT_DIR_MODE)) else None;
        if Within(d, m) {
          CleanAbove(d, m);
        }
      }
    }
  }
}

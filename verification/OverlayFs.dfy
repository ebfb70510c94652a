/** The mounted filesystem: each request carried out step by step on the layers on disk. */
module OverlayFileSystem {
  import opened Replies
  import opened Trees
  import opened PlainTree
  import opened WhiteoutStore
  import opened OverlayRefinement
  import opened PathOverlays
  import opened Listings
  import opened DeadLinks
  import S = OverlayState

  /** The path in the layers behind a path of the mount. */
  function OverlayVisiblePath(visibleRoot: Path, mountPath: Path): Path {
    if mountPath.Root? then visibleRoot
    else Child(OverlayVisiblePath(visibleRoot, mountPath.parent), mountPath.name)
  }

  /** The path reached from the root of the mount by some names is, in the layers, the path reached by the same names
      from the visible root. */
  lemma {:induction false} VisiblePathDescends(visibleRoot: Path, names: seq<Name>)
    ensures OverlayVisiblePath(visibleRoot, Descend(Root, names)) == Descend(visibleRoot, names)
    decreases |names|
  {
    if names != [] {
      var above, last := names[..|names| - 1], names[|names| - 1];
      assert names == above + [last];
      DescendFurther(Root, above, last);
      DescendFurther(visibleRoot, above, last);
      VisiblePathDescends(visibleRoot, above);
    }
  }

  class OverlayFs {
    const overlay: PathOverlay
    const visibleRoot: Path
    const paths: InodeTable

    constructor (overlay: PathOverlay, visibleRoot: Path)
      ensures this.overlay == overlay && this.visibleRoot == visibleRoot
      ensures fresh(paths) && paths.Valid() && paths.byPath == map[Root := ROOT_INO]
    {
      this.overlay := overlay;
      this.visibleRoot := visibleRoot;
      paths := new InodeTable();
    }

    /** The request may be made: the layers are sound, the path avoids the reserved name, the kernel agrees, and if it
        is on a link, that leads to something. */
    ghost predicate Ready(op: Op)
      reads this, overlay
    {
      overlay.Valid() && Clean(op.path) && (op.Rename? ==> Clean(op.to)) && Allowed(S.View(overlay.Layers()), op)
      && Reachable(overlay.Layers(), op)
    }

    /** path_exists, from what the system call finds */
    function PathExists(found: Reply<Node>): Reply<bool> {
      match found
      case Ok(_) => Ok(true)
      case Err(NotFound) => Ok(false)
      case Err(_) => Err(Io)
    }

    method Create(mountPath: Path, perm: nat) returns (r: Reply<()>)
      requires Ready(PlainTree.Create(OverlayVisiblePath(visibleRoot, mountPath), perm))
      modifies overlay
      ensures overlay.Valid()
      ensures Matches(r, old(overlay.Layers()), overlay.Layers(), S.Apply(old(overlay.Layers()),
                        PlainTree.Create(OverlayVisiblePath(visibleRoot, mountPath), perm)))
    {
      var visible := OverlayVisiblePath(visibleRoot, mountPath);
      ghost var s, op := overlay.Layers(), PlainTree.Create(visible, perm);
      BeforeNewNode(s, op);
      var made := CreateDirAll(overlay.upper, visible.parent);
      if made.Err? {
        return Err(Io);
      }
      overlay.upper := made.value;
      var created := OpenCreate(overlay.upper, visible, Permissions(perm));
      if created.Err? {
        return Err(Io);
      }
      overlay.upper := created.value;
      r := RevealNode(visible, s, op);
    }

    method Mkdir(mountPath: Path, perm: nat) returns (r: Reply<()>)
      requires Ready(PlainTree.Mkdir(OverlayVisiblePath(visibleRoot, mountPath), perm))
      modifies overlay
      ensures !MakesOverLink(old(overlay.Layers()), PlainTree.Mkdir(OverlayVisiblePath(visibleRoot, mountPath),
                                                                    perm)) ==>
                overlay.Valid()
      ensures Matches(r, old(overlay.Layers()), overlay.Layers(), S.Apply(old(overlay.Layers()),
                        PlainTree.Mkdir(OverlayVisiblePath(visibleRoot, mountPath), perm)))
    {
      var visible := OverlayVisiblePath(visibleRoot, mountPath);
      ghost var s, op := overlay.Layers(), PlainTree.Mkdir(visible, perm);
      BeforeNewNode(s, op);
      if S.Exists(overlay.upper, overlay.links, visible) {
        return Err(AlreadyExists);
      }
      var made := CreateDirAll(overlay.upper, visible);
      if made.Err? {
        return Err(Io);
      }
      overlay.upper := made.value;
      overlay.upper := overlay.upper[visible := Dir(Permissions(perm))];
      DirMadeTwice(s.upper, visible, NewNode(op));
      r := RevealNode(visible, s, op);
    }

    method Symlink(mountPath: Path, target: string) returns (r: Reply<()>)
      requires Ready(PlainTree.Symlink(OverlayVisiblePath(visibleRoot, mountPath), target))
      modifies overlay
      ensures overlay.Valid()
      ensures Matches(r, old(overlay.Layers()), overlay.Layers(), S.Apply(old(overlay.Layers()),
                        PlainTree.Symlink(OverlayVisiblePath(visibleRoot, mountPath), target)))
    {
      var visible := OverlayVisiblePath(visibleRoot, mountPath);
      ghost var s, op := overlay.Layers(), PlainTree.Symlink(visible, target);
      BeforeNewNode(s, op);
      var made := CreateDirAll(overlay.upper, visible.parent);
      if made.Err? {
        return Err(Io);
      }
      overlay.upper := made.value;
      var linked := AddNode(overlay.upper, visible, Link(target));
      if linked.Err? {
        return Err(Io);
      }
      overlay.upper := linked.value;
      r := RevealNode(visible, s, op);
    }

    /** The end of a creating request: the new node is in place, and a whiteout at its path goes. */
    method RevealNode(visible: Path, ghost s: S.State, ghost op: Op) returns (r: Reply<()>)
      requires S.Inv(s) && Allowed(S.View(s), op) && (op.Create? || op.Mkdir? || op.Symlink?) && op.path == visible
      requires CleanPaths(s.lower) && CleanPaths(s.upper) && Clean(visible)
      requires CreateDirAll(s.upper, visible.parent).Ok? && forall a :: Below(visible, a) ==> a !in s.gone
      requires StoreOk(overlay.whiteouts) && WhiteoutSet(overlay.whiteouts) == s.gone
      requires overlay.lower == s.lower && overlay.links == s.links && overlay.upper == Placed(s, op).upper
      modifies overlay`whiteouts
      ensures r.Ok? && S.Apply(s, op) == Ok(overlay.Layers())
      ensures !MakesOverLink(s, op) ==> overlay.Valid()
    {
      ReachableUnlessDeletedAbove(overlay.whiteouts, visible);
      r := overlay.RemoveWhiteout(visible);
      assert overlay.Layers() == Placed(s, op);
      AfterNewNode(overlay, s, op);
    }

    /** ensure_upper_for_write on a path the kernel knows to exist */
    method EnsureUpperForWrite(visible: Path) returns (r: Reply<()>)
      requires overlay.Valid() && Clean(visible) && visible in S.View(overlay.Layers())
      requires ReachableAt(overlay.Layers(), visible)
      modifies overlay
      ensures overlay.Valid()
      ensures Matches(r, old(overlay.Layers()), overlay.Layers(), S.EnsureUpper(old(overlay.Layers()), visible))
    {
      ghost var s := overlay.Layers();
      EnsureUpperShows(s, visible);
      if S.Exists(overlay.upper, overlay.links, visible) {
        return Ok(());
      }
      BeforeCopyUp(s, visible);
      var made := CreateDirAll(overlay.upper, visible.parent);
      if made.Err? {
        return Err(Io);
      }
      overlay.upper := made.value;
      ReachableUnlessDeletedAbove(overlay.whiteouts, visible);
      WhiteoutSetMeans(overlay.whiteouts, visible);
      var found := overlay.Resolve(visible);
      if found.Err? || !found.value.Found? {
        return Err(Io);
      }
      var copied := CopyUp(overlay.upper, visible, found.value.node);
      if copied.Err? {
        return Err(Io);
      }
      overlay.upper := copied.value;
      r := overlay.RemoveWhiteout(visible);
      AfterCopyUp(overlay, s, visible);
    }

    /** open for writing, appending or not, then one write */
    method Write(mountPath: Path, how: Opening, offset: nat, bytes: seq<Byte>) returns (r: Reply<()>)
      requires Ready(PlainTree.Write(OverlayVisiblePath(visibleRoot, mountPath), how, offset, bytes))
      modifies overlay
      ensures overlay.Valid()
      ensures Matches(r, old(overlay.Layers()), overlay.Layers(), S.Apply(old(overlay.Layers()),
                        PlainTree.Write(OverlayVisiblePath(visibleRoot, mountPath), how, offset, bytes)))
      ensures r.Ok? ==> Leaves(old(S.View(overlay.Layers())),
                               PlainTree.Write(OverlayVisiblePath(visibleRoot, mountPath), how, offset, bytes),
                               S.View(overlay.Layers()))
    {
      var visible := OverlayVisiblePath(visibleRoot, mountPath);
      ghost var s := overlay.Layers();
      ViewAt(s, visible);
      EnsureUpperShows(s, visible);
      r := EnsureUpperForWrite(visible);
      if r.Err? {
        return;
      }
      var node := overlay.upper[visible];
      if !node.File? {
        return Err(Io);
      }
      overlay.upper := overlay.upper[visible := File(Written(node.data, how, offset, bytes), node.mode)];
      AfterTouch(overlay, s, PlainTree.Write(visible, how, offset, bytes));
    }

    method SetAttr(mountPath: Path, size: Option<nat>, mode: Option<nat>) returns (r: Reply<()>)
      requires Ready(PlainTree.SetAttr(OverlayVisiblePath(visibleRoot, mountPath), size, mode))
      modifies overlay
      ensures overlay.Valid()
      ensures Matches(r, old(overlay.Layers()), overlay.Layers(), S.Apply(old(overlay.Layers()),
                        PlainTree.SetAttr(OverlayVisiblePath(visibleRoot, mountPath), size, mode)))
      ensures r.Ok? ==> Leaves(old(S.View(overlay.Layers())),
                               PlainTree.SetAttr(OverlayVisiblePath(visibleRoot, mountPath), size, mode),
                               S.View(overlay.Layers()))
    {
      var visible := OverlayVisiblePath(visibleRoot, mountPath);
      ghost var s := overlay.Layers();
      EnsureUpperShows(s, visible);
      r := EnsureUpperForWrite(visible);
      if r.Err? {
        return;
      }
      ghost var t := overlay.Layers();
      TouchUpper(visible, size, mode);
      SetAttrApplied(s, visible, size, mode, t, overlay.upper);
      assert S.Apply(s, PlainTree.SetAttr(visible, size, mode)) == Ok(overlay.Layers());
      AfterTouch(overlay, s, PlainTree.SetAttr(visible, size, mode));
    }

    /** set_len and then set_permissions on a node of the upper layer */
    method TouchUpper(visible: Path, size: Option<nat>, mode: Option<nat>)
      requires visible in overlay.upper
      modifies overlay`upper
      ensures overlay.upper == old(overlay.upper)[visible := Touch(old(overlay.upper)[visible], size, mode)]
    {
      TouchTwice(overlay.upper, visible, size, mode);
      if size.Some? {
        overlay.upper := overlay.upper[visible := Touch(overlay.upper[visible], size, None)];
      }
      if mode.Some? {
        overlay.upper := overlay.upper[visible := Touch(overlay.upper[visible], None, mode)];
      }
    }

    /** remove_dir or remove_file on the upper layer */
    method RemoveFromUpper(visible: Path, directory: bool) returns (r: Reply<()>)
      modifies overlay`upper
      ensures if visible in old(overlay.upper) && old(overlay.upper)[visible].Dir? == directory
                 && (directory ==> ChildNames(old(overlay.upper), visible) == {})
              then r.Ok? && overlay.upper == old(overlay.upper) - {visible}
              else r == Err(Io) && overlay.upper == old(overlay.upper)
    {
      var removed := if directory then RemoveDir(overlay.upper, visible) else RemoveFile(overlay.upper, visible);
      if removed.Err? {
        return Err(Io);
      }
      overlay.upper := removed.value;
      r := Ok(());
    }

    /** The whiteout of a removed path is made or dropped. */
    method UpdateWhiteout(visible: Path, shouldWhiteout: bool) returns (r: Reply<()>)
      requires StoreOk(overlay.whiteouts) && Clean(visible) && !Blocked(overlay.whiteouts, visible)
      modifies overlay`whiteouts
      ensures StoreOk(overlay.whiteouts) && r.Ok?
      ensures WhiteoutSet(overlay.whiteouts) == if shouldWhiteout then old(WhiteoutSet(overlay.whiteouts)) + {visible}
                                                else old(WhiteoutSet(overlay.whiteouts)) - {visible}
    {
      if shouldWhiteout {
        r := overlay.CreateWhiteout(visible);
      } else {
        r := overlay.RemoveWhiteout(visible);
      }
    }

    /** remove_file_and_update_whiteout or, with `directory`, remove_dir_and_update_whiteout */
    method RemoveAndUpdateWhiteout(visible: Path, directory: bool) returns (r: Reply<()>)
      requires overlay.Valid() && Clean(visible) && Removable(overlay.Layers(), visible, directory)
      modifies overlay
      ensures overlay.Valid()
      ensures Matches(r, old(overlay.Layers()), overlay.Layers(), S.RemoveNode(old(overlay.Layers()), visible,
                                                                               directory))
    {
      ghost var s := overlay.Layers();
      BeforeRemove(s, visible, directory);
      var upperExists := PathExists(Stat(overlay.upper, visible));
      var shouldWhiteout := PathExists(S.LowerStat(overlay.lower, overlay.links, visible));
      if upperExists.Err? || shouldWhiteout.Err? {
        return Err(Io);
      }
      if !upperExists.value && !shouldWhiteout.value {
        return Err(NotFound);
      }
      r := RemoveExisting(visible, directory, upperExists.value, shouldWhiteout.value);
      AfterRemove(overlay, s, visible, directory);
    }

    /** The removal once it is known where the path exists */
    method RemoveExisting(visible: Path, directory: bool, upperExists: bool, shouldWhiteout: bool)
      returns (r: Reply<()>)
      requires overlay.Valid() && Clean(visible) && upperExists == (visible in overlay.upper)
      requires upperExists ==> overlay.upper[visible].Dir? == directory
      requires upperExists && directory ==> ChildNames(overlay.upper, visible) == {}
      requires forall a :: Below(visible, a) ==> a !in overlay.Layers().gone
      modifies overlay`upper, overlay`whiteouts
      ensures r.Ok? && overlay.upper == old(overlay.upper) - {visible} && StoreOk(overlay.whiteouts)
      ensures WhiteoutSet(overlay.whiteouts) == if shouldWhiteout then old(WhiteoutSet(overlay.whiteouts)) + {visible}
                                                else old(WhiteoutSet(overlay.whiteouts)) - {visible}
    {
      ReachableUnlessDeletedAbove(overlay.whiteouts, visible);
      if upperExists {
        var removed := RemoveFromUpper(visible, directory);
        if removed.Err? {
          return Err(Io);
        }
      }
      r := UpdateWhiteout(visible, shouldWhiteout);
    }

    method Unlink(mountPath: Path) returns (r: Reply<()>)
      requires Ready(PlainTree.Unlink(OverlayVisiblePath(visibleRoot, mountPath)))
      modifies overlay
      ensures overlay.Valid()
      ensures Matches(r, old(overlay.Layers()), overlay.Layers(), S.Apply(old(overlay.Layers()),
                        PlainTree.Unlink(OverlayVisiblePath(visibleRoot, mountPath))))
    {
      r := RemoveAndUpdateWhiteout(OverlayVisiblePath(visibleRoot, mountPath), false);
    }

    method Rmdir(mountPath: Path) returns (r: Reply<()>)
      requires Ready(PlainTree.Rmdir(OverlayVisiblePath(visibleRoot, mountPath)))
      modifies overlay
      ensures overlay.Valid()
      ensures Matches(r, old(overlay.Layers()), overlay.Layers(), S.Apply(old(overlay.Layers()),
                        PlainTree.Rmdir(OverlayVisiblePath(visibleRoot, mountPath))))
    {
      var visible := OverlayVisiblePath(visibleRoot, mountPath);
      EmptyListing(overlay.Layers(), visible);
      var entries := MergedDirEntries(mountPath);
      if entries.Err? {
        return Err(entries.errno);
      }
      if entries.value != map[] {
        return Err(NotEmpty);
      }
      r := RemoveAndUpdateWhiteout(visible, true);
    }

    method Rename(from: Path, to: Path) returns (r: Reply<()>)
      requires Ready(PlainTree.Rename(OverlayVisiblePath(visibleRoot, from), OverlayVisiblePath(visibleRoot, to)))
      modifies overlay
      ensures overlay.Valid()
      ensures Matches(r, old(overlay.Layers()), overlay.Layers(), S.Apply(old(overlay.Layers()),
                        PlainTree.Rename(OverlayVisiblePath(visibleRoot, from), OverlayVisiblePath(visibleRoot, to))))
    {
      r := overlay.Rename(OverlayVisiblePath(visibleRoot, from), OverlayVisiblePath(visibleRoot, to));
    }

    /** merged_dir_entries */
    method MergedDirEntries(mountPath: Path) returns (r: Reply<map<Name, S.Kind>>)
      requires overlay.Valid() && Clean(OverlayVisiblePath(visibleRoot, mountPath))
      requires IsDir(S.View(overlay.Layers()), OverlayVisiblePath(visibleRoot, mountPath))
      ensures r == S.MergedDirEntries(overlay.Layers(), OverlayVisiblePath(visibleRoot, mountPath))
    {
      var visible := OverlayVisiblePath(visibleRoot, mountPath);
      ChildrenReachable(overlay, visible, overlay.lower);
      ChildrenReachable(overlay, visible, overlay.upper);
      S.DirLeadsStraight(overlay.Layers(), visible);
      r := MergeLayers(overlay.whiteouts, overlay.lower, overlay.upper, overlay.links, overlay.Layers().gone, visible);
    }

    /** lookup_path: finds exactly what the env sees, under the path's permanent number. */
    method Lookup(mountPath: Path) returns (r: Reply<(nat, S.Kind)>)
      requires overlay.Valid() && paths.Valid() && Clean(OverlayVisiblePath(visibleRoot, mountPath))
      requires mountPath.Child? ==> IsDir(S.View(overlay.Layers()), OverlayVisiblePath(visibleRoot, mountPath.parent))
      modifies paths
      ensures paths.Valid() && NumbersKept(old(paths.byPath), paths.byPath)
      ensures mountPath.Root? ==> r == Ok((ROOT_INO, S.DirKind))
      ensures mountPath.Child? ==> AnswersByName(r, S.Seen(overlay.Layers()), visibleRoot, paths.byPath, mountPath)
    {
      if mountPath.Root? {
        return Ok((ROOT_INO, S.DirKind));
      }
      var visible := OverlayVisiblePath(visibleRoot, mountPath);
      ghost var seen := S.Seen(overlay.Layers());
      LookedUp(overlay, visible);
      var found := overlay.Resolve(visible);
      if found.Err? {
        return Err(Io);
      }
      if found.value.Whiteout? {
        r := Err(NotFound);
      } else {
        var ino := paths.Intern(mountPath);
        r := if found.value.Found? then Ok((ino, S.KindOf(found.value.node))) else Err(NotFound);
      }
      ghost var node := if found.value.Found? then Some(found.value.node) else None;
      NamesLeadThere(r, seen, visibleRoot, paths.byPath, mountPath, node);
    }

    /** readdir: one page of the directory's listing. */
    method Readdir(mountPath: Path, offset: nat, room: nat) returns (r: Reply<seq<DirEntry>>)
      requires overlay.Valid() && paths.Valid() && Clean(OverlayVisiblePath(visibleRoot, mountPath))
      requires IsDir(S.View(overlay.Layers()), OverlayVisiblePath(visibleRoot, mountPath))
      modifies paths
      ensures paths.Valid() && NumbersKept(old(paths.byPath), paths.byPath)
      ensures var listing := S.MergedDirEntries(overlay.Layers(), OverlayVisiblePath(visibleRoot, mountPath));
              if listing.Err? then r == Err(listing.errno)
              else Numbered(paths.byPath, mountPath, listing.value)
                   && r == Ok(Page(FullListing(paths.byPath, mountPath, listing.value), offset, room))
    {
      var merged := MergedDirEntries(mountPath);
      if merged.Err? {
        return Err(merged.errno);
      }
      var entries := NumberEntries(paths, mountPath, merged.value);
      var page := TakePage(entries, offset, room);
      return Ok(page);
    }
  }

  /** A lookup's answer: the path's number and the kind of what is at `p`, or that nothing is there */
  ghost predicate Answers(r: Reply<(nat, S.Kind)>, v: Tree, p: Path, byPath: map<Path, nat>, mountPath: Path) {
    if p in v then
      mountPath in byPath && r.Ok? && r.value.0 == byPath[mountPath] && S.OfKind(r.value.1, v[p])
    else r == Err(NotFound)
  }

  /** The same of a path of the mount named from its root: what is looked up is named from the visible root. */
  ghost predicate AnswersByName(r: Reply<(nat, S.Kind)>, v: Tree, visibleRoot: Path, byPath: map<Path, nat>,
                                mountPath: Path)
  {
    forall names :: mountPath == Descend(Root, names) ==>
      Answers(r, v, Descend(visibleRoot, names), byPath, mountPath)
  }

  lemma NamesLeadThere(r: Reply<(nat, S.Kind)>, v: Tree, visibleRoot: Path, byPath: map<Path, nat>, mountPath: Path,
                       found: Option<Node>)
    requires Get(v, OverlayVisiblePath(visibleRoot, mountPath)) == found
    requires match found
             case Some(n) => mountPath in byPath && r == Ok((byPath[mountPath], S.KindOf(n)))
             case None => r == Err(NotFound)
    ensures AnswersByName(r, v, visibleRoot, byPath, mountPath)
  {
    forall names | mountPath == Descend(Root, names)
      ensures Answers(r, v, Descend(visibleRoot, names), byPath, mountPath)
    {
      VisiblePathDescends(visibleRoot, names);
    }
  }

  /** Below a visible directory the env sees what a lookup finds. */
  lemma LookedUp(overlay: PathOverlay, p: Path)
    requires overlay.Valid() && Clean(p) && p.Child? && IsDir(S.View(overlay.Layers()), p.parent)
    ensures overlay.Resolve(p).Ok?
    ensures Get(S.Seen(overlay.Layers()), p)
            == if overlay.Resolve(p).value.Found? then Some(overlay.Resolve(p).value.node) else None
  {
    SeenAt(overlay.Layers(), p);
    NothingGoneAbove(overlay.Layers(), p);
    ReachableUnlessDeletedAbove(overlay.whiteouts, p);
    overlay.ResolveFinds(p);
  }

  /** No path's number is ever taken away or changed. */
  ghost predicate NumbersKept(before: map<Path, nat>, after: map<Path, nat>) {
    forall p :: p in before ==> p in after && after[p] == before[p]
  }

  /** The directory, its parent and every listed child have numbers. */
  ghost predicate Numbered(byPath: map<Path, nat>, dir: Path, listing: map<Name, S.Kind>) {
    && dir in byPath && (dir.Child? ==> dir.parent in byPath)
    && forall n :: n in listing ==> Child(dir, n) in byPath
  }

  /** The `j`th entry of a listing: the directory itself, its parent, then the names in order. */
  ghost function ListingEntry(byPath: map<Path, nat>, dir: Path, listing: map<Name, S.Kind>, names: seq<Name>,
                              j: nat): DirEntry
    requires j < |names| + 2 && dir in byPath && (dir.Child? ==> dir.parent in byPath)
    requires j >= 2 ==> names[j - 2] in listing && Child(dir, names[j - 2]) in byPath
  {
    if j == 0 then DirEntry(byPath[dir], S.DirKind, ".")
    else if j == 1 then DirEntry(if dir.Root? then ROOT_INO else byPath[dir.parent], S.DirKind, "..")
    else DirEntry(byPath[Child(dir, names[j - 2])], listing[names[j - 2]], names[j - 2])
  }

  ghost function FullListing(byPath: map<Path, nat>, dir: Path, listing: map<Name, S.Kind>): seq<DirEntry>
    requires Numbered(byPath, dir, listing)
  {
    var names := SortedNames(listing.Keys);
    SortedNamesListsOnce(listing.Keys);
    seq(|names| + 2, j requires 0 <= j < |names| + 2 => ListingEntry(byPath, dir, listing, names, j))
  }

  /** The whole listing of a directory, each entry with its permanent number. */
  method NumberEntries(paths: InodeTable, dir: Path, listing: map<Name, S.Kind>) returns (entries: seq<DirEntry>)
    requires paths.Valid()
    modifies paths
    ensures paths.Valid() && NumbersKept(old(paths.byPath), paths.byPath)
    ensures Numbered(paths.byPath, dir, listing) && entries == FullListing(paths.byPath, dir, listing)
  {
    var self := paths.Intern(dir);
    var up := ROOT_INO;
    if dir.Child? {
      up := paths.Intern(dir.parent);
    }
    var names := SortedNames(listing.Keys);
    SortedNamesListsOnce(listing.Keys);
    assert forall j :: 0 <= j < |names| ==> names[j] in listing;
    var children: seq<DirEntry> := [];
    var k := 0;
    while k < |names|
      invariant 0 <= k <= |names| && |children| == k
      invariant paths.Valid() && NumbersKept(old(paths.byPath), paths.byPath)
      invariant dir in paths.byPath && paths.byPath[dir] == self
      invariant dir.Child? ==> dir.parent in paths.byPath && paths.byPath[dir.parent] == up
      invariant ChildrenNumbered(paths.byPath, dir, listing, names, children, k)
    {
      var ino := paths.Intern(Child(dir, names[k]));
      children := children + [DirEntry(ino, listing[names[k]], names[k])];
      k := k + 1;
    }
    entries := [DirEntry(self, S.DirKind, "."), DirEntry(up, S.DirKind, "..")] + children;
    ListingComplete(paths.byPath, dir, listing, self, up, children);
  }

  lemma ListingComplete(byPath: map<Path, nat>, dir: Path, listing: map<Name, S.Kind>, self: nat, up: nat,
                        children: seq<DirEntry>)
    requires dir in byPath && byPath[dir] == self
    requires if dir.Child? then dir.parent in byPath && byPath[dir.parent] == up else up == ROOT_INO
    requires var names := SortedNames(listing.Keys);
             |children| == |names| && ChildrenNumbered(byPath, dir, listing, names, children, |names|)
    ensures Numbered(byPath, dir, listing)
    ensures [DirEntry(self, S.DirKind, "."), DirEntry(up, S.DirKind, "..")] + children
            == FullListing(byPath, dir, listing)
  {
    var names := SortedNames(listing.Keys);
    SortedNamesListsOnce(listing.Keys);
    forall n | n in listing ensures Child(dir, n) in byPath {
      var j :| 0 <= j < |names| && names[j] == n;
    }
    var full := FullListing(byPath, dir, listing);
    var entries := [DirEntry(self, S.DirKind, "."), DirEntry(up, S.DirKind, "..")] + children;
    forall j | 0 <= j < |full| ensures entries[j] == full[j] {
      if j >= 2 {
        assert entries[j] == children[j - 2];
      }
    }
  }

  /** The first `k` child entries carry the numbers the table has for them. */
  ghost predicate ChildrenNumbered(byPath: map<Path, nat>, dir: Path, listing: map<Name, S.Kind>, names: seq<Name>,
                                   children: seq<DirEntry>, k: nat)
  {
    k <= |names| && k <= |children| &&
    forall j :: 0 <= j < k ==>
      && names[j] in listing && Child(dir, names[j]) in byPath
      && children[j] == DirEntry(byPath[Child(dir, names[j])], listing[names[j]], names[j])
  }

  /** Entries are handed over from `offset` on until there is no more room. */
  method TakePage<T>(entries: seq<T>, offset: nat, room: nat) returns (page: seq<T>)
    ensures page == Page(entries, offset, room)
  {
    page := [];
    var index := offset;
    while index < |entries| && |page| < room
      invariant offset <= index && |page| == index - offset <= room
      invariant index <= |entries| || page == []
      invariant page == Page(entries, offset, index - offset)
    {
      page := page + [entries[index]];
      index := index + 1;
    }
  }

  /** Once made, a listing reads the same at every later call: pages of different calls fit together. */
  lemma ListingIsStable(before: map<Path, nat>, after: map<Path, nat>, dir: Path, listing: map<Name, S.Kind>)
    requires Numbered(before, dir, listing) && NumbersKept(before, after)
    ensures Numbered(after, dir, listing) && FullListing(after, dir, listing) == FullListing(before, dir, listing)
  {
    SortedNamesListsOnce(listing.Keys);
  }

  /** One layer's share of merged_dir_entries: its entries that no whiteout hides, over what is there. */
  method AddLayerEntries(w: Tree, ghost gone: set<Path>, layer: map<Name, Node>, p: Path, entries: map<Name, S.Kind>)
    returns (r: Reply<map<Name, S.Kind>>)
    requires forall n :: n in layer ==> WhiteoutExists(w, Child(p, n)) == Ok(Child(p, n) in gone)
    ensures r == Ok(entries + S.Unhidden(gone, p, layer))
  {
    ghost var unhidden := S.Unhidden(gone, p, layer);
    var found := entries;
    var names := layer.Keys;
    while names != {}
      invariant names <= layer.Keys
      invariant forall n :: n in found <==> n in entries || (n in unhidden && n !in names)
      invariant forall n :: n in found ==> found[n] == if n in unhidden && n !in names then unhidden[n] else entries[n]
      decreases names
    {
      var n :| n in names;
      var hidden := WhiteoutExists(w, Child(p, n));
      if hidden.Err? {
        return Err(Io);
      }
      if !hidden.value {
        found := found[n := S.KindOf(layer[n])];
      }
      names := names - {n};
    }
    assert found == entries + unhidden;
    return Ok(found);
  }

  /** The lower listing, then the upper one over it. */
  method MergeLayers(w: Tree, lower: Tree, upper: Tree, links: S.Links, ghost gone: set<Path>, p: Path)
    returns (r: Reply<map<Name, S.Kind>>)
    requires forall n :: n in ChildNames(lower, p) || n in ChildNames(upper, p) ==>
               WhiteoutExists(w, Child(p, n)) == Ok(Child(p, n) in gone)
    requires !ThroughLink(lower, p) && (p in lower ==> !lower[p].Link?) && WellFormed(upper)
    ensures r == S.MergedDirEntries(S.State(lower, upper, gone, links), p)
  {
    var below := S.LowerEntries(lower, links, p);
    if below.Err? {
      return Err(below.errno);
    }
    r := AddLayerEntries(w, gone, below.value, p, map[]);
    ghost var first := S.Unhidden(gone, p, below.value);
    assert map[] + first == first;
    ChildNamesAreChildren(upper, p);
    assert p !in upper ==> first + S.Unhidden(gone, p, S.Entries(upper, p)) == first;
    if p in upper {
      if !upper[p].Dir? {
        return Err(NotADirectory);
      }
      r := AddLayerEntries(w, gone, S.Entries(upper, p), p, r.value);
    }
  }

  /** Each child's whiteout can be looked up, and says whether the layers hide it. */
  lemma ChildrenReachable(overlay: PathOverlay, p: Path, t: Tree)
    requires overlay.Valid() && Clean(p) && p in S.View(overlay.Layers()) && CleanPaths(t)
    ensures forall n :: n in ChildNames(t, p) ==>
              WhiteoutExists(overlay.whiteouts, Child(p, n)) == Ok(Child(p, n) in overlay.Layers().gone)
  {
    ChildNamesAreChildren(t, p);
    forall n | n in ChildNames(t, p)
      ensures WhiteoutExists(overlay.whiteouts, Child(p, n)) == Ok(Child(p, n) in overlay.Layers().gone)
    {
      NothingGoneAbove(overlay.Layers(), Child(p, n));
      ReachableUnlessDeletedAbove(overlay.whiteouts, Child(p, n));
      WhiteoutSetMeans(overlay.whiteouts, Child(p, n));
    }
  }

  /** What a creating request finds: room in `upper`, and nothing deleted above the path. */
  lemma BeforeNewNode(s: S.State, op: Op)
    requires S.Inv(s) && Allowed(S.View(s), op) && (op.Create? || op.Mkdir? || op.Symlink?)
    ensures CreateDirAll(s.upper, op.path.parent).Ok? && op.path !in s.upper
    ensures var u := CreateDirAll(s.upper, op.path.parent).value;
            op.path !in u && IsDir(u, op.path.parent) && !Blocked(u, op.path)
    ensures forall a :: Below(op.path, a) ==> a !in s.gone
  {
    RoomForNode(s, op);
    NothingGoneAbove(s, op.path);
    CreateDirAllEffect(s.upper, op.path.parent);
  }

  /** What it leaves once its steps are done. */
  lemma AfterNewNode(overlay: PathOverlay, s: S.State, op: Op)
    requires S.Inv(s) && Allowed(S.View(s), op) && (op.Create? || op.Mkdir? || op.Symlink?)
    requires CleanPaths(s.lower) && CleanPaths(s.upper) && Clean(op.path)
    requires CreateDirAll(s.upper, op.path.parent).Ok?
    requires StoreOk(overlay.whiteouts) && overlay.Layers() == Placed(s, op)
    ensures S.Apply(s, op) == Ok(overlay.Layers())
    ensures !MakesOverLink(s, op) ==> overlay.Valid()
  {
    if !MakesOverLink(s, op) {
      NewNodeRefines(s, op);
    }
    NewNodeApplied(s, op);
    CleanAbove(op.path, op.path.parent);
    DirsMadeClean(s.upper, op.path.parent);
  }

  /** copy_up: a directory is made anew, a link or file is copied. */
  function CopyUp(u: Tree, p: Path, n: Node): Reply<Tree> {
    match n
    case Dir(_) => CreateDirAll(u, p)
    case Link(_) => AddNode(u, p, n)
    case File(_, _) => CopyFile(u, p, n)
  }

  /** The path is visible, of the right kind, and if it is a directory, empty. */
  ghost predicate Removable(s: S.State, p: Path, directory: bool) {
    && p.Child? && p in S.View(s) && S.View(s)[p].Dir? == directory
    && (directory ==> ChildNames(S.View(s), p) == {})
  }

  /** What a removing request finds: a removable upper node, if any, and only the lower layer to object. */
  lemma BeforeRemove(s: S.State, p: Path, directory: bool)
    requires S.Inv(s) && Removable(s, p, directory)
    ensures forall a :: Below(p, a) ==> a !in s.gone
    ensures S.LowerStat(s.lower, s.links, p) == Stat(s.lower, p)
    ensures Blocked(s.lower, p) ==> p !in s.lower && S.RemoveNode(s, p, directory) == Err(Io)
    ensures !Blocked(s.upper, p)
    ensures p in s.upper ==> s.upper[p].Dir? == directory && (directory ==> ChildNames(s.upper, p) == {})
    ensures p !in s.upper ==> p in s.lower
  {
    S.ViewIsShow(s);
    ViewAt(s, p);
    ParentIsDir(s, p);
    NothingGoneAbove(s, p);
    S.ViewedStraight(s, p);
    UpperNotBlocked(s, p);
    BlockedMeans(s.lower, p);
    if directory {
      ChildNamesAreChildren(S.View(s), p);
      ChildNamesAreChildren(s.upper, p);
      forall n ensures n !in ChildNames(s.upper, p) {
        ViewAt(s, Child(p, n));
        assert n !in ChildNames(S.View(s), p);
      }
    }
  }

  /** What it leaves once its steps are done. */
  lemma AfterRemove(overlay: PathOverlay, s: S.State, p: Path, directory: bool)
    requires S.Inv(s) && Removable(s, p, directory) && CleanPaths(s.lower) && CleanPaths(s.upper)
    requires overlay.lower == s.lower && overlay.links == s.links && !Blocked(s.lower, p)
    requires overlay.upper == s.upper - {p} && StoreOk(overlay.whiteouts)
    requires WhiteoutSet(overlay.whiteouts) == if p in s.lower then s.gone + {p} else s.gone - {p}
    ensures overlay.Valid() && S.RemoveNode(s, p, directory) == Ok(overlay.Layers())
  {
    RemovalIs(s, p, directory);
    assert overlay.Layers() == Removed(s, p);
  }

  lemma RemovalIs(s: S.State, p: Path, directory: bool)
    requires S.Inv(s) && Removable(s, p, directory) && !Blocked(s.lower, p)
    ensures S.Inv(Removed(s, p)) && S.RemoveNode(s, p, directory) == Ok(Removed(s, p))
    ensures Removed(s, p).gone == if p in s.lower then s.gone + {p} else s.gone - {p}
  {
    BeforeRemove(s, p, directory);
    NodeRemoved(s, p, Removed(s, p));
  }

  lemma CopyUpInto(u: Tree, p: Path, n: Node)
    requires WellFormed(u) && p.Child? && IsDir(u, p.parent) && p !in u
    ensures CopyUp(u, p, n) == Ok(u[p := if n.Dir? then Dir(DEFAULT_DIR_MODE) else n])
  {
    BlockedMeans(u, p.parent);
    assert Stat(u, p) == Err(NotFound);
    assert CreateDirAll(u, p.parent) == Ok(u);
    if n.File? {
      assert u[p := File([], n.mode)][p := n] == u[p := n];
    }
  }

  lemma BeforeCopyUp(s: S.State, p: Path)
    requires S.Inv(s) && p in S.View(s) && p !in s.upper && LeadsBelow(s, p)
    ensures CreateDirAll(s.upper, p.parent).Ok? && p !in s.gone && S.Show(s, p) == Some(S.View(s)[p])
    ensures var u := CreateDirAll(s.upper, p.parent).value;
            && p !in u && CopyUp(u, p, S.View(s)[p]).Ok?
            && S.EnsureUpper(s, p) == Ok(s.(upper := CopyUp(u, p, S.View(s)[p]).value, gone := s.gone - {p}))
            && S.Found(s.(upper := u), p) == S.Show(s, p)
    ensures forall a :: Below(p, a) ==> a !in s.gone
  {
    CopyUpIs(s, p);
    ParentIsDir(s, p);
    FoundStraight(s, p);
    NothingGoneAbove(s, p);
    UpperDirsMade(s, p.parent);
    CopyUpInto(CreateDirAll(s.upper, p.parent).value, p, S.View(s)[p]);
    assert S.Found(s.(upper := CreateDirAll(s.upper, p.parent).value), p) == S.Found(s, p);
  }

  lemma ParentIsDir(s: S.State, p: Path)
    requires S.Inv(s) && p in S.View(s) && p.Child?
    ensures IsDir(S.View(s), p.parent)
  {
    S.ViewIsShow(s);
  }

  /** Setting the length and then the mode is setting both. */
  lemma TouchTwice(u: Tree, p: Path, size: Option<nat>, mode: Option<nat>)
    requires p in u
    ensures var u1 := if size.Some? then u[p := Touch(u[p], size, None)] else u;
            var u2 := if mode.Some? then u1[p := Touch(u1[p], None, mode)] else u1;
            u2 == u[p := Touch(u[p], size, mode)]
  {
  }

  lemma SetAttrApplied(s: S.State, p: Path, size: Option<nat>, mode: Option<nat>, t: S.State, u: Tree)
    requires S.Inv(s) && Allowed(S.View(s), PlainTree.SetAttr(p, size, mode)) && S.EnsureUpper(s, p) == Ok(t)
    requires p in t.upper && u == t.upper[p := Touch(t.upper[p], size, mode)]
    ensures S.Apply(s, PlainTree.SetAttr(p, size, mode)) == Ok(t.(upper := u))
  {
  }

  /** What a write or attribute change leaves once its steps are done. */
  lemma AfterTouch(overlay: PathOverlay, s: S.State, op: Op)
    requires S.Inv(s) && Allowed(S.View(s), op) && (op.Write? || op.SetAttr?) && Reachable(s, op)
    requires CleanPaths(overlay.lower) && CleanPaths(overlay.upper) && StoreOk(overlay.whiteouts)
    requires S.Apply(s, op) == Ok(overlay.Layers())
    ensures overlay.Valid() && Leaves(S.View(s), op, S.View(overlay.Layers()))
  {
    ApplyRefines(s, op);
    ApplyLeaves(s, op);
  }

  lemma AfterCopyUp(overlay: PathOverlay, s: S.State, p: Path)
    requires S.Inv(s) && p in S.View(s) && p !in s.upper && LeadsBelow(s, p)
    requires CleanPaths(s.lower) && CleanPaths(s.upper) && Clean(p)
    requires S.EnsureUpper(s, p).Ok?
    requires StoreOk(overlay.whiteouts) && overlay.Layers() == S.EnsureUpper(s, p).value
    ensures overlay.Valid()
  {
    EnsureUpperShows(s, p);
    CopyUpIs(s, p);
    CleanAbove(p, p.parent);
    DirsMadeClean(s.upper, p.parent);
    var u := CreateDirAll(s.upper, p.parent).value;
    assert overlay.upper.Keys == u.Keys + {p};
  }
}

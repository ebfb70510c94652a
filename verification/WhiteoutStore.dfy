/** The encoding of deletions as marker files in the `whiteouts` tree, and the set it stands for.
    A deleted path is an empty file at that path. Where the path is already a directory (because
    something below it was deleted first) the marker is a reserved file inside that directory. */
module WhiteoutStore {
  import opened Replies
  import opened Trees

  const MARKER: Name := ".agentfs-whiteout-dir"
  const MARKER_CONTENT: seq<Byte> := [100, 105, 114, 10]
  /** The mode `write` gives a file nobody chose a mode for. */
  const NEW_FILE_MODE: Mode := 0x1a4

  /** No component of `p` is the reserved marker name. */
  predicate Clean(p: Path) {
    p.Root? || (p.name != MARKER && Clean(p.parent))
  }

  /** A file of the store marks either its own path or, under the reserved name, its parent. */
  ghost predicate StoredProperly(w: Tree, q: Path)
    requires q in w
  {
    match w[q]
    case Dir(_) => Clean(q)
    case File(data, _) => Clean(q) || (q.Child? && q.name == MARKER && Clean(q.parent) && data == MARKER_CONTENT)
    case Link(_) => false
  }

  ghost predicate StoreOk(w: Tree) {
    WellFormed(w) && forall q :: q in w ==> StoredProperly(w, q)
  }

  // ----- reading the store

  /** is_directory_whiteout_marker */
  function IsDirectoryMarker(w: Tree, q: Path): Reply<bool> {
    if q.Root? || q.name != MARKER then Ok(false)
    else
      match Stat(w, q)
      case Ok(File(data, _)) => Ok(data == MARKER_CONTENT)
      case Ok(_) => Err(IsADirectory)
      case Err(NotFound) => Ok(false)
      case Err(e) => Err(e)
  }

  /** whiteout_marker_path */
  function MarkerPath(w: Tree, p: Path): Reply<Option<Path>> {
    match Stat(w, p)
    case Ok(File(_, _)) => Ok(Some(p))
    case Ok(Dir(_)) =>
      (match IsDirectoryMarker(w, Child(p, MARKER))
       case Ok(exists_) => Ok(if exists_ then Some(Child(p, MARKER)) else None)
       case Err(e) => Err(e))
    case Ok(Link(_)) => Ok(None)
    case Err(NotFound) => Ok(None)
    case Err(e) => Err(e)
  }

  /** whiteout_exists */
  function WhiteoutExists(w: Tree, p: Path): Reply<bool> {
    match MarkerPath(w, p)
    case Ok(m) => Ok(m.Some?)
    case Err(e) => Err(e)
  }

  /** visible_path_from_whiteout_storage */
  function VisibleFromStorage(w: Tree, q: Path): Path {
    if IsDirectoryMarker(w, q) == Ok(true) then q.parent else q
  }

  /** Only a file of the reserved name with the marker's content stands for the directory it is in. */
  lemma ReadBackMeans(w: Tree, q: Path)
    ensures VisibleFromStorage(w, q) ==
              if q.Child? && q.name == ".agentfs-whiteout-dir" && q in w && w[q].File?
                 && w[q].data == [100, 105, 114, 10] then q.parent
              else q
  {
  }

  /** The deleted paths: the ones whose whiteout exists. */
  function WhiteoutSet(w: Tree): set<Path> {
    set p | p in w && Clean(p) && WhiteoutExists(w, p) == Ok(true)
  }

  /** Membership spelled out on the store's files. */
  lemma WhiteoutSetMeans(w: Tree, p: Path)
    requires StoreOk(w) && Clean(p)
    ensures p in WhiteoutSet(w) <==> p in w && (w[p].File? || Child(p, MARKER) in w)
    ensures Child(p, MARKER) in w ==> IsDir(w, p) && w[Child(p, MARKER)].File?
    ensures p in w ==> !Blocked(w, p)
    ensures WhiteoutExists(w, p).Ok? <==> !Blocked(w, p)
    ensures WhiteoutExists(w, p).Ok? ==> WhiteoutExists(w, p).value == (p in WhiteoutSet(w))
  {
    BlockedMeans(w, p);
    var m := Child(p, MARKER);
    assert !Clean(m);
    if m in w {
      assert StoredProperly(w, m);
    }
  }

  /** Only a deleted ancestor can make the store unreachable at a path. */
  lemma ReachableUnlessDeletedAbove(w: Tree, p: Path)
    requires StoreOk(w) && Clean(p)
    requires forall a :: Below(p, a) ==> a !in WhiteoutSet(w)
    ensures !Blocked(w, p)
  {
    BlockedMeans(w, p);
    forall a | Below(p, a) && a in w ensures w[a].Dir? {
      assert StoredProperly(w, a);
      CleanAbove(p, a);
      WhiteoutSetMeans(w, a);
    }
  }

  lemma {:induction false} CleanAbove(p: Path, a: Path)
    requires Clean(p) && Within(p, a)
    ensures Clean(a)
  {
    if p != a {
      CleanAbove(p.parent, a);
    }
  }

  /** Reading a marker's storage path back gives the path it was made for. */
  lemma MarkerRoundTrip(w: Tree, p: Path)
    requires StoreOk(w) && Clean(p)
    requires p in WhiteoutSet(w)
    ensures MarkerPath(w, p).Ok? && MarkerPath(w, p).value.Some?
    ensures var m := MarkerPath(w, p).value.value;
            m in w && w[m].File? && VisibleFromStorage(w, m) == p
  {
    WhiteoutSetMeans(w, p);
    assert StoredProperly(w, p);
  }

  /** Every file of the store is the marker of exactly the path it reads back as. */
  lemma StorageRoundTrip(w: Tree, q: Path)
    requires StoreOk(w) && q in w && w[q].File?
    ensures var p := VisibleFromStorage(w, q);
            Clean(p) && p in WhiteoutSet(w) && MarkerPath(w, p) == Ok(Some(q))
  {
    assert StoredProperly(w, q);
    var p := VisibleFromStorage(w, q);
    BlockedMeans(w, q);
    assert q.Child?;
    assert IsDir(w, q.parent);
    BlockedMeans(w, q.parent);
    if Clean(q) {
      assert q.name != MARKER;
      assert p == q;
    } else {
      assert IsDirectoryMarker(w, q) == Ok(true);
      assert Child(p, MARKER) == q;
    }
  }

  // ----- changing the store

  /** Where the marker of `p` is kept: at `p`, or if that is a directory, in it under the reserved name. */
  ghost function MarkerPlace(w: Tree, p: Path): Path {
    if IsDir(w, p) then Child(p, ".agentfs-whiteout-dir") else p
  }

  /** `u` is the store `w` with the marker of `p`; missing directories above it are made, nothing else changes. */
  ghost predicate MarkerStored(w: Tree, p: Path, u: Tree) {
    var m := MarkerPlace(w, p);
    && m in u && u[m].File? && u[m].data == (if IsDir(w, p) then [100, 105, 114, 10] else [])
    && (forall q :: q in w && q != m ==> q in u && u[q] == w[q])
    && (forall q :: q in u && q !in w && q != m ==> u[q].Dir? && Below(p, q))
  }

  /** Adding the right file for `p` inserts `p` and changes no other path's status. */
  lemma MarkerAdded(w: Tree, p: Path, w': Tree, m: Path)
    requires StoreOk(w) && Clean(p)
    requires if IsDir(w, p) then m == Child(p, MARKER) else m == p
    requires m.Child? && IsDir(w, m.parent)
    requires w'.Keys == w.Keys + {m} && w'[m].File?
    requires m != p ==> w'[m].data == MARKER_CONTENT
    requires forall q :: q in w && q != m ==> w'[q] == w[q]
    ensures StoreOk(w') && WhiteoutSet(w') == WhiteoutSet(w) + {p}
  {
    if m != p && m in w {
      assert StoredProperly(w, m);
    }
    forall q | q in w' ensures StoredProperly(w', q) {
      if q != m {
        assert StoredProperly(w, q);
      }
    }
    assert !IsDir(w, m);
    assert m.parent != m;
    forall q ensures q in WhiteoutSet(w') <==> q in WhiteoutSet(w) || q == p {
      if Clean(q) {
        WhiteoutSetMeans(w, q);
        WhiteoutSetMeans(w', q);
      }
    }
  }

  /** The marker is stored once its file is written in a store with the directories above it. */
  lemma MarkerWritten(w: Tree, p: Path, made: Tree, m: Path, u: Tree)
    requires m == MarkerPlace(w, p) && (IsDir(w, p) <==> IsDir(made, p))
    requires forall q :: q in w ==> q in made && made[q] == w[q]
    requires forall q :: q in made && q !in w ==> made[q].Dir? && Below(p, q)
    requires u.Keys == made.Keys + {m} && u[m].File? && u[m].data == if IsDir(w, p) then MARKER_CONTENT else []
    requires forall q :: q in made && q != m ==> u[q] == made[q]
    ensures MarkerStored(w, p, u)
  {
  }

  /** Removing the marker of `p` deletes `p` and changes no other path's status. */
  lemma MarkerRemoved(w: Tree, p: Path, w': Tree)
    requires StoreOk(w) && Clean(p) && MarkerPath(w, p).Ok? && MarkerPath(w, p).value.Some?
    requires w' == w - {MarkerPath(w, p).value.value}
    ensures StoreOk(w') && WhiteoutSet(w') == WhiteoutSet(w) - {p}
  {
    var m := MarkerPath(w, p).value.value;
    WhiteoutSetMeans(w, p);
    assert w[m].File?;
    forall q | q in w' ensures StoredProperly(w', q) {
      assert StoredProperly(w, q);
    }
    forall q ensures q in WhiteoutSet(w') <==> q in WhiteoutSet(w) && q != p {
      MarkerRemovedAt(w, p, m, w', q);
    }
  }

  lemma MarkerRemovedAt(w: Tree, p: Path, m: Path, w': Tree, q: Path)
    requires StoreOk(w) && Clean(p) && MarkerPath(w, p) == Ok(Some(m)) && w' == w - {m} && StoreOk(w')
    ensures q in WhiteoutSet(w') <==> q in WhiteoutSet(w) && q != p
  {
    WhiteoutSetMeans(w, p);
    if Clean(q) {
      WhiteoutSetMeans(w, q);
      WhiteoutSetMeans(w', q);
    }
  }

  /** Dropping an empty directory of the store changes no path's status. */
  lemma StoreDirRemoved(w: Tree, d: Path, w': Tree)
    requires StoreOk(w) && d != Root && IsDir(w, d) && ChildNames(w, d) == {}
    requires w' == w - {d}
    ensures StoreOk(w') && WhiteoutSet(w') == WhiteoutSet(w)
  {
    ChildNamesAreChildren(w, d);
    assert forall q :: q in w && q.Child? && q.parent == d ==> q.name in ChildNames(w, d);
    forall q | q in w' ensures StoredProperly(w', q) {
      assert StoredProperly(w, q);
    }
    forall q ensures q in WhiteoutSet(w') <==> q in WhiteoutSet(w) {
      if Clean(q) {
        WhiteoutSetMeans(w, q);
        WhiteoutSetMeans(w', q);
      }
    }
  }

  // ----- listing the store

  /** The files and links strictly below `dir`. */
  function EntriesBelow(t: Tree, dir: Path): set<Path> {
    set q | q in t && !t[q].Dir? && Below(q, dir)
  }

  /** The nodes at and below `dir`: what a recursive walk has left to visit. */
  ghost function Subtree(t: Tree, dir: Path): set<Path> {
    set q | q in t && Within(q, dir)
  }

  lemma SubtreeShrinks(t: Tree, dir: Path, n: Name)
    requires Child(dir, n) in t && dir in t
    ensures Subtree(t, Child(dir, n)) < Subtree(t, dir)
  {
    var c := Child(dir, n);
    forall q | q in Subtree(t, c) ensures q in Subtree(t, dir) {
      WithinTransitive(q, c, dir);
    }
    BelowIsStrict(c, dir);
    assert dir in Subtree(t, dir) && dir !in Subtree(t, c);
  }

  /** collect_path_preserving_overlay_entries: every file and link below `dir`, each once, as the
      path it stands for. `storage` records the walk's own paths. */
  method CollectEntries(t: Tree, dir: Path, deleted: bool, paths: seq<Path>)
    returns (out: seq<Path>, ghost storage: seq<Path>)
    requires WellFormed(t) && IsDir(t, dir)
    ensures NoDuplicates(storage) && forall q :: q in storage <==> q in EntriesBelow(t, dir)
    ensures |out| == |paths| + |storage| && out[..|paths|] == paths
    ensures forall i :: 0 <= i < |storage| ==>
              out[|paths| + i] == if deleted then VisibleFromStorage(t, storage[i]) else storage[i]
    decreases Subtree(t, dir)
  {
    out, storage := paths, [];
    var names := ChildNames(t, dir);
    ChildNamesAreChildren(t, dir);
    forall q | q in EntriesBelow(t, dir) ensures ViaOneOf(q, dir, names) {
      ViaSomeChild(t, q, dir);
    }
    while names != {}
      invariant names <= ChildNames(t, dir)
      invariant NoDuplicates(storage)
      invariant forall q :: q in storage <==> q in EntriesBelow(t, dir) && !ViaOneOf(q, dir, names)
      invariant |out| == |paths| + |storage| && out[..|paths|] == paths
      invariant forall i :: 0 <= i < |storage| ==>
                  out[|paths| + i] == if deleted then VisibleFromStorage(t, storage[i]) else storage[i]
      decreases names
    {
      var n :| n in names;
      var q := Child(dir, n);
      ghost var before := storage;
      ghost var more: seq<Path>;
      if t[q].Dir? {
        SubtreeShrinks(t, dir, n);
        out, more := CollectEntries(t, q, deleted, out);
      } else {
        out, more := out + [if deleted then VisibleFromStorage(t, q) else q], [q];
      }
      storage := storage + more;
      ViaSplits(t, dir, names, n, more);
      forall i, j | 0 <= i < j < |storage| ensures storage[i] != storage[j] {
        if i < |before| <= j {
          assert storage[i] in before && storage[j] in more;
          assert before[i] == storage[i] && more[j - |before|] == storage[j];
        }
      }
      names := names - {n};
    }
  }

  /** `q` is reached from `dir` through one of the named children. */
  ghost predicate ViaOneOf(q: Path, dir: Path, names: set<Name>) {
    exists n :: n in names && Within(q, Child(dir, n))
  }

  lemma {:induction false} BelowViaChild(q: Path, dir: Path) returns (n: Name)
    requires Below(q, dir)
    ensures Within(q, Child(dir, n))
  {
    if q.parent == dir {
      n := q.name;
    } else {
      n := BelowViaChild(q.parent, dir);
    }
  }

  lemma ViaSomeChild(t: Tree, q: Path, dir: Path)
    requires WellFormed(t) && q in t && Below(q, dir)
    ensures ViaOneOf(q, dir, ChildNames(t, dir))
  {
    var n := BelowViaChild(q, dir);
    AncestorsAreDirs(t, q, Child(dir, n));
    ChildNamesAreChildren(t, dir);
  }

  lemma SiblingsDisjoint(q: Path, dir: Path, n: Name, m: Name)
    requires Within(q, Child(dir, n)) && Within(q, Child(dir, m))
    ensures n == m
  {
    WithinComparable(q, Child(dir, n), Child(dir, m));
    if Within(Child(dir, n), Child(dir, m)) {
      WithinDepth(Child(dir, n), Child(dir, m));
    } else {
      WithinDepth(Child(dir, m), Child(dir, n));
    }
  }

  lemma ViaSplits(t: Tree, dir: Path, names: set<Name>, n: Name, more: seq<Path>)
    requires WellFormed(t) && names <= ChildNames(t, dir) && n in names
    requires Child(dir, n) in t
    requires forall x :: x in more <==> if t[Child(dir, n)].Dir? then x in EntriesBelow(t, Child(dir, n))
             else x == Child(dir, n)
    ensures forall x :: x in more ==> x in EntriesBelow(t, dir) && ViaOneOf(x, dir, names)
    ensures forall x :: x in EntriesBelow(t, dir) ==>
              (ViaOneOf(x, dir, names) <==> x in more || ViaOneOf(x, dir, names - {n}))
    ensures forall x :: x in more ==> !ViaOneOf(x, dir, names - {n})
  {
    var q := Child(dir, n);
    forall x | x in more ensures x in EntriesBelow(t, dir) && ViaOneOf(x, dir, names)
        && !ViaOneOf(x, dir, names - {n})
    {
      assert Within(x, q);
      assert Below(x, dir) by {
        if x != q { WithinTransitive(x.parent, q, dir); }
      }
      forall m | m in names - {n} ensures !Within(x, Child(dir, m)) {
        if Within(x, Child(dir, m)) { SiblingsDisjoint(x, dir, n, m); }
      }
    }
    forall x | x in EntriesBelow(t, dir) && Within(x, q) ensures x in more {
      if t[q].Dir? {
        assert x in EntriesBelow(t, q);
      } else if x != q {
        NothingBelow(t, x, q);
      }
    }
  }

  /** The deletion listing: exactly the stored set, each path once. */
  method ListWhiteouts(w: Tree) returns (paths: seq<Path>)
    requires StoreOk(w)
    ensures NoDuplicates(paths)
    ensures forall p :: p in paths <==> p in WhiteoutSet(w)
  {
    ghost var storage;
    paths, storage := CollectEntries(w, Root, true, []);
    forall i | 0 <= i < |storage|
      ensures storage[i] in w && w[storage[i]].File?
      ensures MarkerPath(w, paths[i]) == Ok(Some(storage[i])) && paths[i] in WhiteoutSet(w)
    {
      assert storage[i] in storage;
      assert storage[i] in EntriesBelow(w, Root);
      assert StoredProperly(w, storage[i]);
      StorageRoundTrip(w, storage[i]);
    }
    forall p | p in WhiteoutSet(w) ensures p in paths {
      MarkerRoundTrip(w, p);
      var m := MarkerPath(w, p).value.value;
      WithinRoot(m);
      WithinRoot(m.parent);
      assert m in EntriesBelow(w, Root);
      var i :| 0 <= i < |storage| && storage[i] == m;
      assert paths[i] == p;
    }
  }
}

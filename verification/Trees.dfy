/** Directory trees as finite maps from paths to nodes, and the filesystem calls made on them.
    A path is read from its last component upwards, so that `parent` is structural. */
module Trees {
  import opened Replies

  type Name = string
  type Byte = b: int | 0 <= b < 256

  /** Permission bits, as `mode & 0o7777` leaves them. */
  type Mode = m: int | 0 <= m < 0x1000

  datatype Path = Root | Child(parent: Path, name: Name)

  datatype Node = Dir(mode: Mode) | File(data: seq<Byte>, mode: Mode) | Link(target: string)

  type Tree = map<Path, Node>

  /** The mode `mkdir` gives a directory nobody chose a mode for. */
  const DEFAULT_DIR_MODE: Mode := 0x1ed

  function Depth(p: Path): nat {
    if p.Root? then 0 else 1 + Depth(p.parent)
  }

  /** `p` is `top` or lies somewhere below it (`starts_with`). */
  predicate Within(p: Path, top: Path) {
    p == top || (p.Child? && Within(p.parent, top))
  }

  /** `p` lies strictly below `top`. */
  predicate Below(p: Path, top: Path) {
    p.Child? && Within(p.parent, top)
  }

  function Get(t: Tree, p: Path): Option<Node> {
    if p in t then Some(t[p]) else None
  }

  predicate IsDir(t: Tree, p: Path) {
    p in t && t[p].Dir?
  }

  /** Two trees with the same content at every path are the same tree. */
  lemma TreesEqual(a: Tree, b: Tree)
    requires forall q :: Get(a, q) == Get(b, q)
    ensures a == b
  {
    forall q ensures q in a <==> q in b {
      assert Get(a, q) == Get(b, q);
    }
    forall q | q in a ensures a[q] == b[q] {
      assert Get(a, q) == Get(b, q);
    }
  }

  /** The root is a directory and every other node sits in a directory. */
  ghost predicate WellFormed(t: Tree) {
    IsDir(t, Root) && forall p {:trigger p in t, p.Child?} :: p in t && p.Child? ==> IsDir(t, p.parent)
  }

  lemma {:induction false} WithinTransitive(a: Path, b: Path, c: Path)
    requires Within(a, b) && Within(b, c)
    ensures Within(a, c)
  {
    if a != b {
      WithinTransitive(a.parent, b, c);
    }
  }

  lemma {:induction false} WithinDepth(p: Path, top: Path)
    requires Within(p, top)
    ensures Depth(p) >= Depth(top)
    ensures Depth(p) == Depth(top) ==> p == top
  {
    if p != top {
      WithinDepth(p.parent, top);
    }
  }

  /** No path lies strictly below itself. */
  lemma BelowIsStrict(p: Path, top: Path)
    requires Below(p, top)
    ensures p != top && !Within(top, p)
  {
    WithinDepth(p.parent, top);
    if Within(top, p) {
      WithinDepth(top, p);
    }
  }

  /** Two ancestors of one path are comparable. */
  lemma {:induction false} WithinComparable(p: Path, a: Path, b: Path)
    requires Within(p, a) && Within(p, b)
    ensures Within(a, b) || Within(b, a)
  {
    if p != a && p != b {
      WithinComparable(p.parent, a, b);
    }
  }

  lemma {:induction false} WithinRoot(p: Path)
    ensures Within(p, Root)
  {
    if p.Child? {
      WithinRoot(p.parent);
    }
  }

  /** Everything above an existing node is a directory. */
  lemma {:induction false} AncestorsAreDirs(t: Tree, p: Path, a: Path)
    requires WellFormed(t) && p in t && Within(p, a)
    ensures a in t && (a != p ==> t[a].Dir?)
  {
    if p != a {
      AncestorsAreDirs(t, p.parent, a);
    }
  }

  /** Nothing exists below a path that is not a directory. */
  lemma NothingBelow(t: Tree, p: Path, a: Path)
    requires WellFormed(t) && !IsDir(t, a) && Below(p, a)
    ensures p !in t
  {
    if p in t {
      AncestorsAreDirs(t, p, a);
      BelowIsStrict(p, a);
    }
  }

  /** Nothing that is in the tree itself lies behind a link. */
  lemma ExistsStraight(t: Tree, p: Path)
    requires WellFormed(t) && p in t
    ensures !ThroughLink(t, p) && !Blocked(t, p)
  {
    BlockedMeans(t, p);
  }

  // ----- paths by their names

  /** The path that leads from `p` down through the names. */
  function Descend(p: Path, names: seq<Name>): Path
    decreases |names|
  {
    if names == [] then p else Descend(Child(p, names[0]), names[1..])
  }

  lemma {:induction false} DescendIsWithin(p: Path, names: seq<Name>)
    ensures Within(Descend(p, names), p)
    ensures names != [] ==> Below(Descend(p, names), p)
    decreases |names|
  {
    if names != [] {
      var c := Child(p, names[0]);
      DescendIsWithin(c, names[1..]);
      var q := Descend(p, names);
      if q != c {
        WithinTransitive(q.parent, c, p);
      }
    }
  }

  lemma {:induction false} WithinIsDescend(q: Path, p: Path) returns (names: seq<Name>)
    requires Within(q, p)
    ensures Descend(p, names) == q
    decreases q
  {
    if q == p {
      names := [];
    } else {
      var above := WithinIsDescend(q.parent, p);
      names := above + [q.name];
      DescendFurther(p, above, q.name);
    }
  }

  lemma {:induction false} DescendFurther(p: Path, names: seq<Name>, n: Name)
    ensures Descend(p, names + [n]) == Child(Descend(p, names), n)
    decreases |names|
  {
    if names == [] {
      assert [] + [n] == [n];
    } else {
      assert (names + [n])[1..] == names[1..] + [n];
      DescendFurther(Child(p, names[0]), names[1..], n);
    }
  }

  lemma {:induction false} DepthIsLength(names: seq<Name>)
    ensures Depth(Descend(Root, names)) == |names|
    decreases |names|
  {
    if names != [] {
      var above, last := names[..|names| - 1], names[|names| - 1];
      assert names == above + [last];
      DescendFurther(Root, above, last);
      DepthIsLength(above);
    }
  }

  // ----- filesystem calls

  /** Some proper ancestor of `p` exists and is not a directory, so every call on `p` fails with ENOTDIR. */
  predicate Blocked(t: Tree, p: Path) {
    p.Child? && (if p.parent in t then !t[p.parent].Dir? else Blocked(t, p.parent))
  }

  /** The nearest existing ancestor of `p` is a symbolic link, so a lookup of `p` leaves the tree at that link. */
  predicate ThroughLink(t: Tree, p: Path) {
    p.Child? && (if p.parent in t then t[p.parent].Link? else ThroughLink(t, p.parent))
  }

  /** symlink_metadata, where no link is on the way */
  function Stat(t: Tree, p: Path): Reply<Node> {
    if p in t then Ok(t[p]) else if Blocked(t, p) then Err(NotADirectory) else Err(NotFound)
  }

  /** symlink_metadata at any path; `beyond` has what is found behind the tree's links. */
  function StatThrough(t: Tree, beyond: map<Path, Reply<Node>>, p: Path): Reply<Node> {
    if ThroughLink(t, p) then (if p in beyond then beyond[p] else Err(NotFound))
    else Stat(t, p)
  }

  /** create_dir_all */
  function CreateDirAll(t: Tree, p: Path): Reply<Tree> {
    if p in t then
      if t[p].Dir? then Ok(t) else Err(NotADirectory)
    else if p.Root? then
      Err(NotFound)
    else
      match CreateDirAll(t, p.parent)
      case Ok(u) => Ok(u[p := Dir(DEFAULT_DIR_MODE)])
      case Err(e) => Err(e)
  }

  /** remove_dir_all or remove_file, whichever the node calls for; nothing if it is absent. */
  function RemoveRecursively(t: Tree, p: Path): Tree {
    map q | q in t && !Within(q, p) :: t[q]
  }

  /** remove_file */
  function RemoveFile(t: Tree, p: Path): Reply<Tree> {
    match Stat(t, p)
    case Err(e) => Err(e)
    case Ok(Dir(_)) => Err(IsADirectory)
    case Ok(_) => Ok(t - {p})
  }

  /** remove_dir */
  function RemoveDir(t: Tree, p: Path): Reply<Tree> {
    match Stat(t, p)
    case Err(e) => Err(e)
    case Ok(Dir(_)) => if ChildNames(t, p) == {} then Ok(t - {p}) else Err(NotEmpty)
    case Ok(_) => Err(NotADirectory)
  }

  /** A new node where there is none; its parent must be a directory. */
  function AddNode(t: Tree, p: Path, n: Node): Reply<Tree> {
    match Stat(t, p)
    case Ok(_) => Err(AlreadyExists)
    case Err(NotFound) => if p.Child? && IsDir(t, p.parent) then Ok(t[p := n]) else Err(NotFound)
    case Err(e) => Err(e)
  }

  /** Opening for writing with the create flag. Opening a symbolic link would leave the tree, and fails here. */
  function OpenCreate(t: Tree, p: Path, mode: Mode): Reply<Tree> {
    match Stat(t, p)
    case Ok(File(_, _)) => Ok(t)
    case Ok(_) => Err(IsADirectory)
    case Err(_) => AddNode(t, p, File([], mode))
  }

  /** fs::write: the whole content, the mode of an existing file kept. */
  function WriteWhole(t: Tree, p: Path, data: seq<Byte>, mode: Mode): Reply<Tree> {
    match OpenCreate(t, p, mode)
    case Ok(u) => if p in u && u[p].File? then Ok(u[p := File(data, u[p].mode)]) else Err(Io)
    case Err(e) => Err(e)
  }

  /** fs::copy of a regular file: content and mode. */
  function CopyFile(t: Tree, p: Path, source: Node): Reply<Tree>
    requires source.File?
  {
    match OpenCreate(t, p, source.mode)
    case Ok(u) => Ok(u[p := source])
    case Err(e) => Err(e)
  }

  /** fs::rename of a file or symbolic link, over an existing file or link if there is one. */
  function RenameLeaf(t: Tree, from: Path, to: Path): Reply<Tree> {
    if !(to.Child? && IsDir(t, to.parent)) then Err(NotFound)
    else if from !in t || t[from].Dir? then Err(NotFound)
    else if to in t && t[to].Dir? then Err(IsADirectory)
    else Ok((t - {from})[to := t[from]])
  }

  /** read_dir */
  function ChildNames(t: Tree, p: Path): set<Name> {
    set q | q in t && q.Child? && q.parent == p :: q.name
  }

  lemma ChildNamesAreChildren(t: Tree, p: Path)
    ensures forall n :: n in ChildNames(t, p) <==> Child(p, n) in t
  {
    forall n ensures n in ChildNames(t, p) <==> Child(p, n) in t {
      if Child(p, n) in t {
        assert Child(p, n).name in ChildNames(t, p);
      }
    }
  }

  /** In a well-formed tree a path is blocked exactly when one of its ancestors is a non-directory. */
  lemma {:induction false} BlockedMeans(t: Tree, p: Path)
    requires WellFormed(t)
    ensures Blocked(t, p) <==> exists a :: Below(p, a) && a in t && !t[a].Dir?
    ensures Blocked(t, p) ==> p !in t
  {
    if p.Child? {
      BlockedMeans(t, p.parent);
      if p.parent in t {
        if t[p.parent].Dir? {
          forall a | Below(p, a) && a in t ensures t[a].Dir? {
            AncestorsAreDirs(t, p.parent, a);
          }
        } else {
          assert Below(p, p.parent);
        }
      } else if Blocked(t, p.parent) {
        var a :| Below(p.parent, a) && a in t && !t[a].Dir?;
        assert Below(p, a);
      } else {
        forall a | Below(p, a) && a in t ensures t[a].Dir? {
          assert a != p.parent;
          assert Below(p.parent, a);
        }
      }
    }
  }

  /** What create_dir_all leaves behind: missing ancestors become default directories, nothing else moves. */
  lemma {:induction false} CreateDirAllEffect(t: Tree, p: Path)
    requires WellFormed(t)
    ensures CreateDirAll(t, p).Ok? <==> !Blocked(t, p) && (p in t ==> t[p].Dir?)
    ensures CreateDirAll(t, p).Ok? ==>
              var u := CreateDirAll(t, p).value;
              && WellFormed(u) && IsDir(u, p)
              && forall q :: Get(u, q) == if q in t then Get(t, q)
                                          else if Within(p, q) then Some(Dir(DEFAULT_DIR_MODE))
                                          else None
  {
    if p in t {
      BlockedMeans(t, p);
      if t[p].Dir? {
        forall q | Within(p, q) ensures q in t {
          AncestorsAreDirs(t, p, q);
        }
      }
    } else {
      CreateDirAllEffect(t, p.parent);
      if CreateDirAll(t, p).Ok? {
        var u := CreateDirAll(t, p).value;
        forall q | q in u && q.Child? ensures IsDir(u, q.parent) {
          var v := CreateDirAll(t, p.parent).value;
          assert q == p || q in v;
        }
        forall q ensures Get(u, q) == if q in t then Get(t, q)
                                      else if Within(p, q) then Some(Dir(DEFAULT_DIR_MODE))
                                      else None
        {
        }
      }
    }
  }

  lemma {:induction false} CreateDirAllRefuses(t: Tree, p: Path)
    requires WellFormed(t)
    ensures CreateDirAll(t, p).Err? ==> CreateDirAll(t, p) == Err(NotADirectory)
  {
    if p !in t {
      CreateDirAllRefuses(t, p.parent);
    }
  }

  lemma RemoveRecursivelyKeepsShape(t: Tree, p: Path)
    requires WellFormed(t) && p != Root
    ensures WellFormed(RemoveRecursively(t, p))
  {
  }

  /** Putting a node where its parent is a directory keeps the shape, if a directory is not lost. */
  lemma PutKeepsShape(t: Tree, p: Path, n: Node)
    requires WellFormed(t) && p.Child? && IsDir(t, p.parent)
    requires n.Dir? || ChildNames(t, p) == {}
    ensures WellFormed(t[p := n])
  {
    assert p.parent != p;
    assert forall q :: q in t && q.Child? && q.parent == p ==> q.name in ChildNames(t, p);
  }
}

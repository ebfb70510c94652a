/** Comparing two trees: the deep comparison behind the host-conflict check, and the list of changed paths. */
module TreeComparison {
  import opened Replies
  import opened Trees
  import opened WhiteoutStore

  /** The same content in both trees at `p` and everywhere below it. */
  ghost predicate SameSubtree(l: Tree, r: Tree, p: Path) {
    forall q :: Within(q, p) ==> Get(l, q) == Get(r, q)
  }

  /** symlink_metadata_if_exists, from what the system call finds */
  function IfExists(found: Reply<Node>): Reply<Option<Node>> {
    match found
    case Ok(n) => Ok(Some(n))
    case Err(NotFound) => Ok(None)
    case Err(e) => Err(e)
  }

  function StatIfExists(t: Tree, p: Path): Reply<Option<Node>> {
    IfExists(Stat(t, p))
  }

  // ----- comparing two places

  /** paths_equivalent with files_equal and dirs_equivalent, at the places the two paths stand for */
  function PathsEquivalent(l: Tree, p: Path, r: Tree, q: Path): Reply<bool>
    requires WellFormed(l) && WellFormed(r)
    decreases Subtree(l, p)
  {
    match (StatIfExists(l, p), StatIfExists(r, q))
    case (Err(e), _) => Err(e)
    case (_, Err(e)) => Err(e)
    case (Ok(Some(File(a, m))), Ok(Some(File(b, n)))) => Ok(m == n && |a| == |b| && a == b)
    case (Ok(Some(Link(a))), Ok(Some(Link(b)))) => Ok(a == b)
    case (Ok(Some(Dir(m))), Ok(Some(Dir(n)))) =>
      var names := ChildNames(l, p) + ChildNames(r, q);
      Ok(m == n && forall name | name in names ::
           ChildSubtreeSmaller(l, p, name);
           PathsEquivalent(l, Child(p, name), r, Child(q, name)) == Ok(true))
    case (Ok(None), Ok(None)) => Ok(true)
    case _ => Ok(false)
  }

  lemma ChildSubtreeSmaller(t: Tree, p: Path, n: Name)
    requires p in t
    ensures Subtree(t, Child(p, n)) < Subtree(t, p)
  {
    var c := Child(p, n);
    BelowIsStrict(c, p);
    forall q | q in Subtree(t, c) ensures q in Subtree(t, p) {
      WithinTransitive(q, c, p);
    }
    assert p in Subtree(t, p) && p !in Subtree(t, c);
  }

  /** The same content below two places, name by name. */
  ghost predicate SameBelow(l: Tree, p: Path, r: Tree, q: Path) {
    forall names :: Get(l, Descend(p, names)) == Get(r, Descend(q, names))
  }

  /** At one and the same place the two notions agree. */
  lemma SameBelowIsSameSubtree(l: Tree, r: Tree, p: Path)
    ensures SameBelow(l, p, r, p) <==> SameSubtree(l, r, p)
  {
    if SameBelow(l, p, r, p) {
      forall q | Within(q, p) ensures Get(l, q) == Get(r, q) {
        var names := WithinIsDescend(q, p);
      }
    }
    if SameSubtree(l, r, p) {
      forall names ensures Get(l, Descend(p, names)) == Get(r, Descend(p, names)) {
        DescendIsWithin(p, names);
      }
    }
  }

  /** The comparison is exact: it answers whether the two subtrees are equal in kind, mode, bytes, link
      targets and children, and fails only where a tree has a non-directory above the place. */
  lemma {:induction false} PathsEquivalentIsExact(l: Tree, p: Path, r: Tree, q: Path)
    requires WellFormed(l) && WellFormed(r)
    ensures PathsEquivalent(l, p, r, q).Ok? <==> !Blocked(l, p) && !Blocked(r, q)
    ensures PathsEquivalent(l, p, r, q).Ok? ==> PathsEquivalent(l, p, r, q).value == SameBelow(l, p, r, q)
    ensures PathsEquivalent(l, p, r, q).Err? ==> PathsEquivalent(l, p, r, q) == Err(NotADirectory)
    decreases Subtree(l, p)
  {
    BlockedMeans(l, p);
    BlockedMeans(r, q);
    if IsDir(l, p) && IsDir(r, q) {
      var names := ChildNames(l, p) + ChildNames(r, q);
      forall name | name in names
        ensures PathsEquivalent(l, Child(p, name), r, Child(q, name)) == Ok(true) <==>
                SameBelow(l, Child(p, name), r, Child(q, name))
      {
        ChildSubtreeSmaller(l, p, name);
        PathsEquivalentIsExact(l, Child(p, name), r, Child(q, name));
        ChildNamesAreChildren(l, p);
        ChildNamesAreChildren(r, q);
      }
      SameBelowByChildren(l, p, r, q);
    } else if !Blocked(l, p) && !Blocked(r, q) {
      SameBelowAtLeaf(l, p, r, q);
    }
  }

  lemma SameBelowByChildren(l: Tree, p: Path, r: Tree, q: Path)
    requires WellFormed(l) && WellFormed(r) && IsDir(l, p) && IsDir(r, q)
    ensures SameBelow(l, p, r, q) <==>
            l[p] == r[q] && forall n :: n in ChildNames(l, p) + ChildNames(r, q)
                                        ==> SameBelow(l, Child(p, n), r, Child(q, n))
  {
    ChildNamesAreChildren(l, p);
    ChildNamesAreChildren(r, q);
    if SameBelow(l, p, r, q) {
      assert Get(l, Descend(p, [])) == Get(r, Descend(q, []));
      forall n, names ensures Get(l, Descend(Child(p, n), names)) == Get(r, Descend(Child(q, n), names)) {
        assert ([n] + names)[1..] == names;
        assert Get(l, Descend(p, [n] + names)) == Get(r, Descend(q, [n] + names));
      }
    } else {
      var names :| Get(l, Descend(p, names)) != Get(r, Descend(q, names));
      if names != [] {
        var n := names[0];
        assert Get(l, Descend(Child(p, n), names[1..])) != Get(r, Descend(Child(q, n), names[1..]));
        NothingDescends(l, Child(p, n), names[1..]);
        NothingDescends(r, Child(q, n), names[1..]);
      }
    }
  }

  lemma NothingDescends(t: Tree, p: Path, names: seq<Name>)
    requires WellFormed(t)
    ensures p !in t ==> Descend(p, names) !in t
    ensures p in t && !t[p].Dir? && names != [] ==> Descend(p, names) !in t
  {
    DescendIsWithin(p, names);
    if names != [] && !IsDir(t, p) {
      NothingBelow(t, Descend(p, names), p);
    }
  }

  lemma SameBelowAtLeaf(l: Tree, p: Path, r: Tree, q: Path)
    requires WellFormed(l) && WellFormed(r) && !(IsDir(l, p) && IsDir(r, q))
    ensures SameBelow(l, p, r, q) <==> Get(l, p) == Get(r, q)
  {
    if SameBelow(l, p, r, q) {
      assert Get(l, Descend(p, [])) == Get(r, Descend(q, []));
    }
    if Get(l, p) == Get(r, q) {
      forall names ensures Get(l, Descend(p, names)) == Get(r, Descend(q, names)) {
        NothingDescends(l, p, names);
        NothingDescends(r, q, names);
      }
    }
  }

  /** As a relation between unobstructed places, the comparison is an equivalence. */
  lemma PathsEquivalentIsEquivalence(a: Tree, p: Path, b: Tree, q: Path, c: Tree, r: Path)
    requires WellFormed(a) && WellFormed(b) && WellFormed(c)
    requires !Blocked(a, p) && !Blocked(b, q) && !Blocked(c, r)
    ensures PathsEquivalent(a, p, a, p) == Ok(true)
    ensures PathsEquivalent(a, p, b, q) == PathsEquivalent(b, q, a, p)
    ensures PathsEquivalent(a, p, b, q) == Ok(true) && PathsEquivalent(b, q, c, r) == Ok(true)
            ==> PathsEquivalent(a, p, c, r) == Ok(true)
  {
    PathsEquivalentIsExact(a, p, a, p);
    PathsEquivalentIsExact(a, p, b, q);
    PathsEquivalentIsExact(b, q, a, p);
    PathsEquivalentIsExact(b, q, c, r);
    PathsEquivalentIsExact(a, p, c, r);
  }

  // ----- the list of changed paths

  datatype Change = Changed(path: Path) | Deleted(path: Path)

  /** The first component of a path. */
  function FirstComponent(p: Path): Name
    requires p.Child?
  {
    if p.parent.Root? then p.name else FirstComponent(p.parent)
  }

  /** is_runtime_only_path */
  predicate IsRuntimeOnly(p: Path) {
    p.Child? && FirstComponent(p) in {"proc", "sys", "dev", "run", "tmp"}
  }

  /** The paths the walk compares. */
  predicate Compared(p: Path) {
    p.Child? && !IsRuntimeOnly(p)
  }

  /** All paths are compared but the root and what lies at or below five names in it. */
  lemma {:induction false} ComparedByNames(names: seq<Name>)
    ensures Compared(Descend(Root, names)) <==>
            names != [] && names[0] != "proc" && names[0] != "sys" && names[0] != "dev" && names[0] != "run"
            && names[0] != "tmp"
  {
    if names != [] {
      FirstName(names);
    }
  }

  lemma {:induction false} FirstName(names: seq<Name>)
    requires names != []
    ensures Descend(Root, names).Child? && FirstComponent(Descend(Root, names)) == names[0]
    decreases |names|
  {
    var above, last := names[..|names| - 1], names[|names| - 1];
    assert names == above + [last];
    DescendFurther(Root, above, last);
    if above != [] {
      FirstName(above);
    }
  }

  /** path_changed: the node was added, or differs in kind, mode, bytes or link target. */
  function PathChanged(found: Reply<Node>, n: Node): Reply<bool> {
    match (IfExists(found), n)
    case (Err(e), _) => Err(e)
    case (Ok(None), _) => Ok(true)
    case (Ok(Some(File(a, m))), File(b, k)) => Ok(m != k || |a| != |b| || a != b)
    case (Ok(Some(Link(a))), Link(b)) => Ok(a != b)
    case (Ok(Some(Dir(m))), Dir(k)) => Ok(m != k)
    case _ => Ok(true)
  }

  /** What lies behind the symbolic links of the two trees; nothing is assumed of it. */
  datatype Beyond = Beyond(base: map<Path, Reply<Node>>, env: map<Path, Reply<Node>>)

  /** What the walk should list: added or shallowly changed paths, and deleted ones. */
  ghost function TrueChanges(base: Tree, env: Tree): set<Change> {
    (set p | p in env && Compared(p) && Get(base, p) != Get(env, p) :: Changed(p)) +
    (set p | p in base && Compared(p) && p !in env :: Deleted(p))
  }

  /** What it lists: it takes what it finds through a link for a node of the tree. */
  ghost function SeenChanges(base: Tree, env: Tree, beyond: Beyond): set<Change> {
    (set p | p in env && Compared(p) && StatThrough(base, beyond.base, p) != Ok(env[p]) :: Changed(p)) +
    (set p | p in base && Compared(p) && StatThrough(env, beyond.env, p).Err? :: Deleted(p))
  }

  predicate Found(found: Reply<Node>) {
    found.Ok? || found.errno == NotFound
  }

  /** Neither tree has a path that cannot be looked up in the other. */
  ghost predicate Comparable(base: Tree, env: Tree, beyond: Beyond) {
    && (forall p :: p in env && Compared(p) ==> Found(StatThrough(base, beyond.base, p)))
    && (forall p :: p in base && Compared(p) ==> Found(StatThrough(env, beyond.env, p)))
  }

  /** changed_paths_by_walk. It succeeds exactly on comparable trees, and then lists what it sees of the changes. */
  method ChangedPathsByWalk(base: Tree, env: Tree, beyond: Beyond) returns (r: Reply<set<Change>>)
    requires WellFormed(base) && WellFormed(env)
    ensures r.Ok? <==> Comparable(base, env, beyond)
    ensures r.Ok? ==> r.value == SeenChanges(base, env, beyond)
  {
    var changed: set<Change> := {};
    var todo := env.Keys;
    while todo != {}
      invariant todo <= env.Keys
      invariant forall p :: p in env && p !in todo && Compared(p) ==> Found(StatThrough(base, beyond.base, p))
      invariant changed ==
        set p | p in env && p !in todo && Compared(p) && StatThrough(base, beyond.base, p) != Ok(env[p]) :: Changed(p)
      decreases todo
    {
      var p :| p in todo;
      todo := todo - {p};
      if Compared(p) {
        var differs := PathChanged(StatThrough(base, beyond.base, p), env[p]);
        if differs.Err? {
          return Err(differs.errno);
        }
        if differs.value {
          changed := changed + {Changed(p)};
        }
      }
    }
    ghost var added := changed;
    todo := base.Keys;
    while todo != {}
      invariant todo <= base.Keys
      invariant forall p :: p in base && p !in todo && Compared(p) ==> Found(StatThrough(env, beyond.env, p))
      invariant changed == added + set p | p in base && p !in todo && Compared(p)
                && StatThrough(env, beyond.env, p).Err? :: Deleted(p)
      decreases todo
    {
      var p :| p in todo;
      todo := todo - {p};
      if Compared(p) {
        var found := IfExists(StatThrough(env, beyond.env, p));
        if found.Err? {
          return Err(found.errno);
        }
        if found.value.None? {
          changed := changed + {Deleted(p)};
        }
      }
    }
    return Ok(changed);
  }

  /** Nothing found behind a link passes for a node of the other tree. */
  ghost predicate NothingPasses(base: Tree, env: Tree, beyond: Beyond) {
    && (forall p :: p in env && Compared(p) && ThroughLink(base, p) ==> StatThrough(base, beyond.base, p) != Ok(env[p]))
    && (forall p :: p in base && Compared(p) && ThroughLink(env, p) ==> StatThrough(env, beyond.env, p).Err?)
  }

  /** The walk lists exactly the changes unless something behind a link passes for a node, and only then. */
  lemma ChangesSeenExactly(base: Tree, env: Tree, beyond: Beyond)
    requires WellFormed(base) && WellFormed(env) && Comparable(base, env, beyond)
    ensures SeenChanges(base, env, beyond) == TrueChanges(base, env) <==> NothingPasses(base, env, beyond)
  {
    if NothingPasses(base, env, beyond) {
      AllChangesSeen(base, env, beyond);
    } else {
      SomeChangeMissed(base, env, beyond);
    }
  }

  /** What is found behind a link is not in the tree itself. */
  lemma NotInTheTree(t: Tree, p: Path)
    requires WellFormed(t)
    ensures ThroughLink(t, p) ==> p !in t
  {
    if p in t {
      ExistsStraight(t, p);
    }
  }

  lemma AllChangesSeen(base: Tree, env: Tree, beyond: Beyond)
    requires WellFormed(base) && WellFormed(env) && Comparable(base, env, beyond) && NothingPasses(base, env, beyond)
    ensures SeenChanges(base, env, beyond) == TrueChanges(base, env)
  {
    forall p | p in env && Compared(p)
      ensures StatThrough(base, beyond.base, p) != Ok(env[p]) <==> Get(base, p) != Get(env, p)
    {
      NotInTheTree(base, p);
    }
    forall p | p in base && Compared(p) ensures StatThrough(env, beyond.env, p).Err? <==> p !in env {
      NotInTheTree(env, p);
    }
  }

  lemma SomeChangeMissed(base: Tree, env: Tree, beyond: Beyond)
    requires WellFormed(base) && WellFormed(env) && Comparable(base, env, beyond) && !NothingPasses(base, env, beyond)
    ensures SeenChanges(base, env, beyond) != TrueChanges(base, env)
  {
    if p :| p in env && Compared(p) && ThroughLink(base, p) && StatThrough(base, beyond.base, p) == Ok(env[p]) {
      NotInTheTree(base, p);
      assert Changed(p) in TrueChanges(base, env) && Changed(p) !in SeenChanges(base, env, beyond);
    } else {
      var p :| p in base && Compared(p) && ThroughLink(env, p) && StatThrough(env, beyond.env, p).Ok?;
      NotInTheTree(env, p);
      assert Deleted(p) in TrueChanges(base, env) && Deleted(p) !in SeenChanges(base, env, beyond);
    }
  }

  /** Trees that agree outside the runtime-only parts compare without error and without changes; and only those. */
  lemma NoChangesMeansAgreement(base: Tree, env: Tree, beyond: Beyond)
    requires WellFormed(base) && WellFormed(env)
    ensures Comparable(base, env, beyond) && SeenChanges(base, env, beyond) == {} <==>
            forall p :: Compared(p) ==> Get(base, p) == Get(env, p)
  {
    if forall p :: Compared(p) ==> Get(base, p) == Get(env, p) {
      forall p | Compared(p) && (p in env || p in base)
        ensures StatThrough(base, beyond.base, p) == Ok(env[p]) && StatThrough(env, beyond.env, p).Ok?
      {
        assert Get(base, p) == Get(env, p);
        ExistsStraight(base, p);
        ExistsStraight(env, p);
      }
    } else {
      var p :| Compared(p) && Get(base, p) != Get(env, p);
      if p in env {
        ChangeIsSeen(base, env, beyond, p);
      } else {
        DeletionIsSeen(base, env, beyond, p);
      }
    }
  }

  /** A change behind a link shows at the link. */
  lemma {:induction false} ChangeIsSeen(base: Tree, env: Tree, beyond: Beyond, p: Path)
    requires WellFormed(base) && WellFormed(env) && Compared(p) && p in env && Get(base, p) != Get(env, p)
    ensures SeenChanges(base, env, beyond) != {}
  {
    if StatThrough(base, beyond.base, p) != Ok(env[p]) {
      assert Changed(p) in SeenChanges(base, env, beyond);
    } else {
      ParentChanged(base, env, p);
      ChangeIsSeen(base, env, beyond, p.parent);
    }
  }

  lemma ParentChanged(base: Tree, env: Tree, p: Path)
    requires WellFormed(base) && WellFormed(env) && Compared(p) && p in env && ThroughLink(base, p)
    ensures Compared(p.parent) && IsDir(env, p.parent) && !IsDir(base, p.parent)
  {
    if p.parent in base {
      ExistsStraight(base, p.parent);
    }
  }

  lemma {:induction false} DeletionIsSeen(base: Tree, env: Tree, beyond: Beyond, p: Path)
    requires WellFormed(base) && WellFormed(env) && Compared(p) && p in base && p !in env
    ensures SeenChanges(base, env, beyond) != {}
  {
    if StatThrough(env, beyond.env, p).Err? {
      assert Deleted(p) in SeenChanges(base, env, beyond);
    } else {
      ParentChanged(env, base, p);
      if p.parent in env {
        ChangeIsSeen(base, env, beyond, p.parent);
      } else {
        DeletionIsSeen(base, env, beyond, p.parent);
      }
    }
  }

  /** The walk fails where a file of the base has become a directory with something in it. */
  lemma FileTurnedDirectoryIsNotComparable(base: Tree, env: Tree, beyond: Beyond, d: Path, n: Name)
    requires WellFormed(base) && WellFormed(env)
    requires Compared(d) && d in base && base[d].File? && Child(d, n) in env
    ensures !Comparable(base, env, beyond)
  {
    assert Compared(Child(d, n));
    assert !Found(StatThrough(base, beyond.base, Child(d, n)));
  }

  /** A link of the base that has become a directory hides what is the same behind it. */
  lemma LinkTurnedDirectoryHides(base: Tree, env: Tree, beyond: Beyond, d: Path, n: Name)
    requires WellFormed(base) && WellFormed(env)
    requires Compared(d) && d in base && base[d].Link? && Child(d, n) in env
    requires Child(d, n) in beyond.base && beyond.base[Child(d, n)] == Ok(env[Child(d, n)])
    ensures Changed(Child(d, n)) in TrueChanges(base, env) && Changed(Child(d, n)) !in SeenChanges(base, env, beyond)
  {
    ExistsStraight(env, Child(d, n));
    assert Compared(Child(d, n)) && ThroughLink(base, Child(d, n));
    NothingBelow(base, Child(d, n), d);
  }
}

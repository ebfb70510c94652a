/** Every operation on the layers acts on the view as the plain operation does on one tree. */
module OverlayRefinement {
  import opened Replies
  import opened Trees
  import opened PlainTree
  import opened WhiteoutStore
  import S = OverlayState

  /** Where create_dir_all and copy_up of directories start from for an operation. */
  function CopyTarget(op: Op): Option<Path> {
    match op
    case Create(p, _) => if p.Child? then Some(p.parent) else None
    case Mkdir(p, _) => if p.Child? then Some(p.parent) else None
    case Symlink(p, _) => if p.Child? then Some(p.parent) else None
    case Write(p, _, _, _) => Some(p)
    case SetAttr(p, _, _) => Some(p)
    case Unlink(_) => None
    case Rmdir(_) => None
    case Rename(_, to) => if to.Child? then Some(to.parent) else None
  }

  /** The visible directories an operation copies to `upper` for the first time. */
  function CopiedDirs(s: S.State, op: Op): set<Path> {
    match CopyTarget(op)
    case None => {}
    case Some(d) => set q | q in S.View(s) && S.View(s)[q].Dir? && Within(d, q) && q !in s.upper
  }

  /** `v` with the given directories back at the mode `mkdir` gives by default. */
  function Defaulted(v: Tree, ds: set<Path>): Tree {
    map q | q in v :: if q in ds && v[q].Dir? then Dir(DEFAULT_DIR_MODE) else v[q]
  }

  /** Copying loses no more than directory modes, so the same operations stay allowed. */
  lemma DefaultedIsSame(v: Tree, ds: set<Path>, op: Op)
    ensures SameButDirModes(v, Defaulted(v, ds))
    ensures Allowed(v, op) ==> Allowed(Defaulted(v, ds), op)
  {
  }

  /** When an allowed operation succeeds. The exceptions are errors of the layers the plain tree does not
      have: a lower file above or at the removed path, and a copy-up onto an existing target. */
  ghost predicate Succeeds(s: S.State, op: Op)
    requires Allowed(S.View(s), op)
  {
    match op
    case Unlink(p) => !Blocked(s.lower, p)
    case Rmdir(p) => ChildNames(S.View(s), p) == {} && !Blocked(s.lower, p) && (p in s.lower ==> s.lower[p].Dir?)
    case Rename(p, to) =>
      p !in s.upper && to in s.upper ==>
        S.View(s)[p].File? && (s.upper[to].File? || S.WriteThrough(s.upper, s.links, to, S.View(s)[p]).Ok?)
    case _ => true
  }

  // ----- links in the way

  /** mkdir at a path where the snapshot has a link */
  predicate MakesOverLink(s: S.State, op: Op) {
    op.Mkdir? && op.path in s.lower && s.lower[op.path].Link?
  }

  /** rename of a node of the snapshot onto a link of the upper layer */
  predicate RenamesOntoLink(s: S.State, op: Op) {
    op.Rename? && op.path !in s.upper && op.to in s.upper && s.upper[op.to].Link?
  }

  /** If the operation is on a link, then where the operation looks for it the link leads to something. */
  predicate Reachable(s: S.State, op: Op) {
    match op
    case SetAttr(p, _, _) => ReachableAt(s, p)
    case Rename(p, to) =>
      && LeadsBelow(s, p) && to.Child?
      && (CreateDirAll(s.upper, to.parent).Ok? && p in s.upper ==>
            S.Exists(CreateDirAll(s.upper, to.parent).value, s.links, p))
    case _ => true
  }

  /** If there is a link at the path, it leads to something. */
  predicate ReachableAt(s: S.State, p: Path) {
    if p in s.upper then S.Exists(s.upper, s.links, p) else LeadsBelow(s, p)
  }

  /** A link of the snapshot at the path leads to something. */
  predicate LeadsBelow(s: S.State, p: Path) {
    p in s.lower && s.lower[p].Link? ==> p !in s.links.dead
  }

  /** No link is in the way of the operation: what the caller can check beforehand. */
  predicate Direct(s: S.State, op: Op) {
    !MakesOverLink(s, op) && !RenamesOntoLink(s, op) && Reachable(s, op)
  }

  /** A path that is looked up in the layers themselves is found there. */
  lemma FoundStraight(s: S.State, p: Path)
    requires S.Inv(s) && p in S.View(s) && LeadsBelow(s, p)
    ensures p !in s.upper ==> S.Found(s, p) == S.Show(s, p)
    ensures S.LowerFound(s.lower, s.links, p).Some? <==> S.LowerStat(s.lower, s.links, p).Ok?
    ensures S.LowerStat(s.lower, s.links, p) == Stat(s.lower, p)
  {
    S.ViewIsShow(s);
    S.ViewedStraight(s, p);
  }

  // ----- what create_dir_all does to a state

  /** Making the missing upper directories above a visible directory defaults their modes, nothing more. */
  lemma UpperDirsMade(s: S.State, d: Path)
    requires S.Inv(s) && IsDir(S.View(s), d)
    ensures CreateDirAll(s.upper, d).Ok?
    ensures var u := CreateDirAll(s.upper, d).value;
            && S.Inv(s.(upper := u)) && IsDir(u, d)
            && (forall q :: q in u && q !in s.upper ==> Within(d, q) && IsDir(S.View(s), q))
            && (forall q :: q in s.upper ==> q in u && u[q] == s.upper[q])
            && (forall q :: S.Show(s.(upper := u), q) ==
                  if Within(d, q) && q !in s.upper then Some(Dir(DEFAULT_DIR_MODE)) else S.Show(s, q))
  {
    S.ViewIsShow(s);
    forall q | Within(d, q) ensures IsDir(S.View(s), q) {
      AncestorsAreDirs(S.View(s), d, q);
    }
    BlockedMeans(s.upper, d);
    CreateDirAllEffect(s.upper, d);
    forall a | Below(d, a) && a in s.upper ensures s.upper[a].Dir? {
      assert Within(d, a);
    }
    DirsCovered(s, d, CreateDirAll(s.upper, d).value);
  }

  lemma DirsCovered(s: S.State, d: Path, u: Tree)
    requires S.Inv(s) && WellFormed(u) && IsDir(u, d)
    requires forall q :: Within(d, q) ==> S.Show(s, q).Some? && S.Show(s, q).value.Dir?
    requires forall q :: Get(u, q) == if q in s.upper then Get(s.upper, q)
                                      else if Within(d, q) then Some(Dir(DEFAULT_DIR_MODE))
                                      else None
    ensures S.Inv(s.(upper := u))
    ensures forall q :: q in u && q !in s.upper ==> Within(d, q)
    ensures forall q :: q in s.upper ==> q in u && u[q] == s.upper[q]
    ensures forall q :: S.Show(s.(upper := u), q) ==
                          if Within(d, q) && q !in s.upper then Some(Dir(DEFAULT_DIR_MODE)) else S.Show(s, q)
  {
    forall q | q in u && q !in s.upper ensures Within(d, q) && u[q].Dir? {
      assert Get(u, q) == Some(u[q]);
    }
    forall q | q in s.upper ensures q in u && u[q] == s.upper[q] {
      assert Get(u, q) == Some(s.upper[q]);
    }
    forall q ensures S.Show(s.(upper := u), q) ==
                       if Within(d, q) && q !in s.upper then Some(Dir(DEFAULT_DIR_MODE)) else S.Show(s, q) {
      assert Get(u, q) == if q in s.upper then Get(s.upper, q)
                          else if Within(d, q) then Some(Dir(DEFAULT_DIR_MODE))
                          else None;
    }
  }

  // ----- placing and removing a node

  /** No child of `p` shows, and none would if `p` itself were gone from both layers' sight. */
  ghost predicate Bare(s: S.State, p: Path) {
    forall c: Path :: c.Child? && c.parent == p ==> c !in s.upper && (c in s.lower ==> c in s.gone)
  }

  /** Putting a fresh node into an upper directory, dropping the whiteout, shows it and nothing else new. */
  lemma NodePlaced(s: S.State, p: Path, n: Node, t: S.State)
    requires S.Inv(s) && p.Child? && IsDir(s.upper, p.parent)
    requires S.Show(s, p).Some? ==> !S.Show(s, p).value.Dir?
    requires n.Dir? ==> !(p in s.lower && s.lower[p].Link?)
    requires t == s.(upper := s.upper[p := n], gone := s.gone - {p})
    ensures S.Inv(t)
    ensures forall q :: S.Show(t, q) == if q == p then Some(n) else S.Show(s, q)
  {
    BareHere(s, p);
    PlacedInv(s, p, n, t);
  }

  /** What shows as no directory has no children that could show. */
  lemma BareHere(s: S.State, p: Path)
    requires S.Inv(s) && (S.Show(s, p).Some? ==> !S.Show(s, p).value.Dir?)
    ensures Bare(s, p)
  {
  }

  lemma PlacedInv(s: S.State, p: Path, n: Node, t: S.State)
    requires S.Inv(s) && p.Child? && IsDir(s.upper, p.parent) && Bare(s, p)
    requires n.Dir? ==> !(p in s.lower && s.lower[p].Link?)
    requires t == s.(upper := s.upper[p := n], gone := s.gone - {p})
    ensures S.Inv(t)
  {
    assert forall q :: q in s.upper && q.Child? && q.parent == p ==> false;
    PutKeepsShape(s.upper, p, n);
    forall c | c in t.lower && c.Child? && (c.parent in t.gone || (c.parent in t.upper && !t.upper[c.parent].Dir?))
      ensures c in t.gone
    {
      assert p.parent != p && p.parent in s.upper;
    }
  }

  /** Replacing an upper node by one of the same kind shows the new node. */
  lemma NodeUpdated(s: S.State, p: Path, n: Node, t: S.State)
    requires S.Inv(s) && p in s.upper && n.Dir? == s.upper[p].Dir?
    requires t == s.(upper := s.upper[p := n])
    ensures S.Inv(t)
    ensures forall q :: S.Show(t, q) == if q == p then Some(n) else S.Show(s, q)
  {
  }

  /** Taking a childless visible node away, with the whiteout the lower layer calls for, hides it only. */
  lemma NodeRemoved(s: S.State, p: Path, t: S.State)
    requires S.Inv(s) && p.Child? && p in S.View(s)
    requires S.View(s)[p].Dir? ==> ChildNames(S.View(s), p) == {}
    requires t == s.(upper := s.upper - {p}, gone := S.GoneAfterRemoval(s, p))
    ensures S.Inv(t)
    ensures forall q :: S.Show(t, q) == if q == p then None else S.Show(s, q)
  {
    S.ViewIsShow(s);
    S.ViewedStraight(s, p);
    ChildNamesAreChildren(S.View(s), p);
    forall c: Path | c.Child? && c.parent == p ensures c !in s.upper && (c in s.lower ==> c in s.gone) {
      assert c == Child(p, c.name);
      assert Get(S.View(s), c) == S.Show(s, c);
    }
    BareRemoved(s, p, t);
  }

  lemma BareRemoved(s: S.State, p: Path, t: S.State)
    requires S.Inv(s) && p.Child? && S.Show(s, p).Some? && Bare(s, p)
    requires t == s.(upper := s.upper - {p}, gone := if p in s.lower then s.gone + {p} else s.gone - {p})
    ensures S.Inv(t)
    ensures forall q :: S.Show(t, q) == if q == p then None else S.Show(s, q)
  {
    assert p.parent != p;
  }

  // ----- the refinement, one kind of operation at a time

  /** The view of `t` is what the plain operation makes of the view of `s`, with the copied directories
      defaulted. */
  ghost predicate ShowsLikePlain(s: S.State, op: Op, t: S.State)
    requires Allowed(S.View(s), op)
  {
    var v := Defaulted(S.View(s), CopiedDirs(s, op));
    Allowed(v, op) && Step(v, op) == Ok(S.View(t))
  }

  /** The same, and the invariant and the snapshot are kept. */
  ghost predicate StepsLikePlain(s: S.State, op: Op, t: S.State)
    requires Allowed(S.View(s), op)
  {
    S.Inv(t) && t.lower == s.lower && t.links == s.links && ShowsLikePlain(s, op, t)
  }

  /** It is enough to compare what the two show at each path. */
  lemma ShownSuffices(s: S.State, op: Op, t: S.State, v: Tree)
    requires Allowed(S.View(s), op) && S.Inv(t) && t.lower == s.lower && t.links == s.links
    requires v == Defaulted(S.View(s), CopiedDirs(s, op)) && Allowed(v, op) && Step(v, op).Ok?
    requires forall q :: S.Show(t, q) == Get(Step(v, op).value, q)
    ensures StepsLikePlain(s, op, t)
  {
    S.ViewIsShow(t);
    TreesEqual(S.View(t), Step(v, op).value);
  }

  /** What the view holds once the copied directories are defaulted. */
  lemma DefaultedShows(s: S.State, op: Op, d: Path)
    requires S.Inv(s) && CopyTarget(op) == Some(d)
    ensures forall q :: Get(Defaulted(S.View(s), CopiedDirs(s, op)), q) ==
              if Within(d, q) && q !in s.upper && IsDir(S.View(s), q) then Some(Dir(DEFAULT_DIR_MODE)) else S.Show(s, q)
  {
    S.ViewIsShow(s);
    var ds := CopiedDirs(s, op);
    forall q ensures Get(Defaulted(S.View(s), ds), q) ==
        if Within(d, q) && q !in s.upper && IsDir(S.View(s), q) then Some(Dir(DEFAULT_DIR_MODE)) else S.Show(s, q)
    {
      assert Get(S.View(s), q) == S.Show(s, q);
      assert q in ds <==> Within(d, q) && q !in s.upper && IsDir(S.View(s), q);
    }
  }

  /** The node a creating operation puts at its path. */
  function NewNode(op: Op): Node
    requires op.Create? || op.Mkdir? || op.Symlink?
  {
    match op
    case Create(_, perm) => File([], Permissions(perm))
    case Mkdir(_, perm) => Dir(Permissions(perm))
    case Symlink(_, target) => Link(target)
  }

  /** The layers after a creating operation has put its node in place. */
  function Placed(s: S.State, op: Op): S.State
    requires op.Create? || op.Mkdir? || op.Symlink?
    requires op.path.Child? && CreateDirAll(s.upper, op.path.parent).Ok?
  {
    s.(upper := CreateDirAll(s.upper, op.path.parent).value[op.path := NewNode(op)], gone := s.gone - {op.path})
  }

  /** The directories above a new node can be made, and nothing is in its place. */
  lemma RoomForNode(s: S.State, op: Op)
    requires S.Inv(s) && Allowed(S.View(s), op)
    requires op.Create? || op.Mkdir? || op.Symlink?
    ensures CreateDirAll(s.upper, op.path.parent).Ok?
    ensures var u := CreateDirAll(s.upper, op.path.parent).value;
            && S.Inv(s.(upper := u)) && op.path !in u && op.path !in s.upper && S.Show(s.(upper := u), op.path) == None
  {
    S.ViewIsShow(s);
    var p := op.path;
    assert Get(S.View(s), p) == S.Show(s, p);
    UpperDirsMade(s, p.parent);
    BelowIsStrict(p, p.parent);
  }

  lemma NewNodeShows(s: S.State, op: Op)
    requires S.Inv(s) && Allowed(S.View(s), op) && !MakesOverLink(s, op)
    requires op.Create? || op.Mkdir? || op.Symlink?
    ensures CreateDirAll(s.upper, op.path.parent).Ok?
    ensures StepsLikePlain(s, op, Placed(s, op))
  {
    S.ViewIsShow(s);
    var p := op.path;
    RoomForNode(s, op);
    UpperDirsMade(s, p.parent);
    var u := CreateDirAll(s.upper, p.parent).value;
    var s1 := s.(upper := u);
    DefaultedShows(s, op, p.parent);
    DefaultedIsSame(S.View(s), CopiedDirs(s, op), op);
    NodePlaced(s1, p, NewNode(op), Placed(s, op));
    var v := Defaulted(S.View(s), CopiedDirs(s, op));
    ViewParents(s, p);
    PlacedAgrees(s, s1, Placed(s, op), p, NewNode(op), S.View(s), v);
    assert Step(v, op) == Ok(v[p := NewNode(op)]);
    ShownSuffices(s, op, Placed(s, op), v);
  }

  lemma PlacedAgrees(s: S.State, s1: S.State, t: S.State, p: Path, n: Node, view: Tree, v: Tree)
    requires p.Child? && forall q :: Within(p.parent, q) ==> IsDir(view, q)
    requires forall q :: Get(v, q) ==
               if Within(p.parent, q) && q !in s.upper && IsDir(view, q) then Some(Dir(DEFAULT_DIR_MODE))
                   else S.Show(s, q)
    requires forall q :: S.Show(s1, q) == if Within(p.parent, q) && q !in s.upper then Some(Dir(DEFAULT_DIR_MODE))
             else S.Show(s, q)
    requires forall q :: S.Show(t, q) == if q == p then Some(n) else S.Show(s1, q)
    ensures forall q :: S.Show(t, q) == Get(v[p := n], q)
  {
  }

  lemma NewNodeApplied(s: S.State, op: Op)
    requires S.Inv(s) && Allowed(S.View(s), op)
    requires op.Create? || op.Mkdir? || op.Symlink?
    ensures CreateDirAll(s.upper, op.path.parent).Ok? && S.Apply(s, op) == Ok(Placed(s, op))
  {
    RoomForNode(s, op);
    var u := CreateDirAll(s.upper, op.path.parent).value;
    if op.Mkdir? {
      DirMadeTwice(s.upper, op.path, NewNode(op));
    }
  }

  /** The directory that mkdir makes along with its parents only then gets its mode. */
  lemma DirMadeTwice(u: Tree, p: Path, n: Node)
    requires p.Child? && p !in u && CreateDirAll(u, p.parent).Ok?
    ensures CreateDirAll(u, p).Ok? && CreateDirAll(u, p).value[p := n] == CreateDirAll(u, p.parent).value[p := n]
  {
  }

  lemma NewNodeRefines(s: S.State, op: Op)
    requires S.Inv(s) && Allowed(S.View(s), op) && !MakesOverLink(s, op)
    requires op.Create? || op.Mkdir? || op.Symlink?
    ensures S.Apply(s, op).Ok? && StepsLikePlain(s, op, S.Apply(s, op).value)
  {
    NewNodeShows(s, op);
    NewNodeApplied(s, op);
  }

  /** ensure_upper_for_write on a visible path brings it to `upper` and changes directory modes only. */
  lemma EnsureUpperShows(s: S.State, p: Path)
    requires S.Inv(s) && p in S.View(s) && ReachableAt(s, p)
    ensures S.EnsureUpper(s, p).Ok?
    ensures CopiedUpTo(s, S.EnsureUpper(s, p).value, p, S.View(s))
  {
    if p in s.upper {
      ViewAt(s, p);
      forall q | Within(p, q) ensures q in s.upper {
        AncestorsAreDirs(s.upper, p, q);
      }
    } else {
      CopyUpIs(s, p);
      if IsDir(S.View(s), p) {
        CopyUpDirShows(s, p, S.EnsureUpper(s, p).value);
      } else {
        CopyUpLeafShows(s, p, S.EnsureUpper(s, p).value);
      }
    }
  }

  /** The path is in `upper`, and nothing but the modes of the copied directories has changed in sight. */
  ghost predicate CopiedUpTo(s: S.State, t: S.State, p: Path, view: Tree) {
    && S.Inv(t) && t.lower == s.lower && t.links == s.links && p in t.upper
    && forall q :: S.Show(t, q) ==
         if Within(p, q) && q !in s.upper && IsDir(view, q) then Some(Dir(DEFAULT_DIR_MODE)) else S.Show(s, q)
  }

  /** What a copy-up puts into the upper layer */
  lemma CopyUpIs(s: S.State, p: Path)
    requires S.Inv(s) && p in S.View(s) && p !in s.upper && LeadsBelow(s, p)
    ensures p.Child? && CreateDirAll(s.upper, p.parent).Ok? && p !in CreateDirAll(s.upper, p.parent).value
    ensures S.Show(s, p) == Some(S.View(s)[p])
    ensures S.EnsureUpper(s, p) ==
              Ok(s.(upper := CreateDirAll(s.upper, p.parent).value[p := if S.View(s)[p].Dir? then Dir(DEFAULT_DIR_MODE)
                                                                        else S.View(s)[p]],
                    gone := s.gone - {p}))
  {
    ViewAt(s, p);
    ParentShows(s, p);
    FoundStraight(s, p);
    UpperDirsMade(s, p.parent);
    BelowIsStrict(p, p.parent);
  }

  lemma ParentShows(s: S.State, p: Path)
    requires S.Inv(s) && p in S.View(s) && p.Child?
    ensures IsDir(S.View(s), p.parent)
  {
    S.ViewIsShow(s);
  }

  lemma CopyUpDirShows(s: S.State, p: Path, t: S.State)
    requires S.Inv(s) && IsDir(S.View(s), p) && p.Child? && CreateDirAll(s.upper, p.parent).Ok? && p !in s.upper
    requires t == s.(upper := CreateDirAll(s.upper, p.parent).value[p := Dir(DEFAULT_DIR_MODE)], gone := s.gone - {p})
    ensures CopiedUpTo(s, t, p, S.View(s))
  {
    ViewAt(s, p);
    UpperDirsMade(s, p);
    assert s.gone - {p} == s.gone;
    assert t == s.(upper := CreateDirAll(s.upper, p).value);
    S.ViewIsShow(s);
    forall q | Within(p, q) ensures IsDir(S.View(s), q) {
      AncestorsAreDirs(S.View(s), p, q);
    }
  }

  lemma CopyUpLeafShows(s: S.State, p: Path, t: S.State)
    requires S.Inv(s) && p in S.View(s) && !S.View(s)[p].Dir? && p.Child? && CreateDirAll(s.upper, p.parent).Ok?
    requires t == s.(upper := CreateDirAll(s.upper, p.parent).value[p := S.View(s)[p]], gone := s.gone - {p})
    ensures CopiedUpTo(s, t, p, S.View(s))
  {
    ViewAt(s, p);
    ParentShows(s, p);
    ViewParents(s, p);
    UpperDirsMade(s, p.parent);
    BelowIsStrict(p, p.parent);
    var s1 := s.(upper := CreateDirAll(s.upper, p.parent).value);
    assert S.Show(s1, p) == S.Show(s, p);
    NodePlaced(s1, p, S.View(s)[p], t);
    LeafIsOwnTop(s, p);
  }

  lemma LeafIsOwnTop(s: S.State, p: Path)
    requires p.Child? && !IsDir(S.View(s), p)
    ensures forall q :: Within(p, q) && IsDir(S.View(s), q) <==> Within(p.parent, q) && IsDir(S.View(s), q)
  {
    BelowIsStrict(p, p.parent);
  }

  /** A visible file is no link. */
  lemma FileIsReachable(s: S.State, op: Op)
    requires S.Inv(s) && Allowed(S.View(s), op) && (op.Write? || op.SetAttr?) && Reachable(s, op)
    ensures ReachableAt(s, op.path)
  {
    ViewAt(s, op.path);
  }

  lemma WriteRefines(s: S.State, op: Op)
    requires S.Inv(s) && Allowed(S.View(s), op) && Reachable(s, op)
    requires op.Write? || op.SetAttr?
    ensures S.Apply(s, op).Ok? && StepsLikePlain(s, op, S.Apply(s, op).value)
  {
    S.ViewIsShow(s);
    var p := op.path;
    assert Get(S.View(s), p) == S.Show(s, p);
    FileIsReachable(s, op);
    EnsureUpperShows(s, p);
    DefaultedShows(s, op, p);
    DefaultedIsSame(S.View(s), CopiedDirs(s, op), op);
    UpdateRefines(s, op, Defaulted(S.View(s), CopiedDirs(s, op)), S.EnsureUpper(s, p).value);
  }

  /** The node as the operation leaves it */
  function Updated(op: Op, n: Node): Node
    requires if op.Write? then n.File? else op.SetAttr?
  {
    if op.Write? then File(Written(n.data, op.how, op.offset, op.bytes), n.mode) else Touch(n, op.size, op.newMode)
  }

  lemma UpdateRefines(s: S.State, op: Op, v: Tree, t0: S.State)
    requires S.Inv(s) && Allowed(S.View(s), op) && (op.Write? || op.SetAttr?)
    requires S.EnsureUpper(s, op.path) == Ok(t0) && S.Inv(t0) && op.path in t0.upper
    requires t0.lower == s.lower && t0.links == s.links
    requires v == Defaulted(S.View(s), CopiedDirs(s, op)) && Allowed(v, op) && forall q :: S.Show(t0, q) == Get(v, q)
    ensures S.Apply(s, op).Ok? && StepsLikePlain(s, op, S.Apply(s, op).value)
  {
    var p := op.path;
    assert S.Show(t0, p) == Some(t0.upper[p]) == Get(v, p);
    var n := Updated(op, t0.upper[p]);
    var t := t0.(upper := t0.upper[p := n]);
    NodeUpdated(t0, p, n, t);
    assert S.Apply(s, op) == Ok(t);
    assert Step(v, op) == Ok(v[p := n]);
    ShownSuffices(s, op, t, v);
  }

  /** A directory lists a name with a kind exactly when its child is visible with that kind; and listing a
      visible directory fails exactly where the lower layer still has a file. */
  lemma ListingAgreesWithView(s: S.State, p: Path)
    requires S.Inv(s) && IsDir(S.View(s), p)
    ensures S.MergedDirEntries(s, p).Ok? <==> !(p in s.lower && s.lower[p].File?)
    ensures S.MergedDirEntries(s, p).Ok? ==>
              forall n :: Get(S.View(s), Child(p, n)).Some? == (n in S.MergedDirEntries(s, p).value)
                          && (n in S.MergedDirEntries(s, p).value ==>
                                S.OfKind(S.MergedDirEntries(s, p).value[n], S.View(s)[Child(p, n)]))
  {
    S.DirLeadsStraight(s, p);
    ViewAt(s, p);
    BlockedMeans(s.lower, p);
    ChildNamesAreChildren(s.lower, p);
    ChildNamesAreChildren(s.upper, p);
    if S.MergedDirEntries(s, p).Ok? {
      var m := S.MergedDirEntries(s, p).value;
      forall n ensures n in m <==> Child(p, n) in S.View(s)
               ensures n in m ==> S.OfKind(m[n], S.View(s)[Child(p, n)]) {
        ViewAt(s, Child(p, n));
        assert n in m ==> m[n] == S.KindOf(S.View(s)[Child(p, n)]);
      }
    }
  }

  /** An empty merged listing means no visible children, where the lower layer has no file in the way. */
  lemma EmptyListing(s: S.State, p: Path)
    requires S.Inv(s) && IsDir(S.View(s), p)
    ensures S.MergedDirEntries(s, p) == Ok(map[]) <==>
            (p in s.lower ==> s.lower[p].Dir?) && ChildNames(S.View(s), p) == {}
    ensures S.MergedDirEntries(s, p) == Ok(map[]) ==> ChildNames(s.upper, p) == {}
  {
    ListingAgreesWithView(s, p);
    S.DirLeadsStraight(s, p);
    ChildNamesAreChildren(S.View(s), p);
    ChildNamesAreChildren(s.upper, p);
    if S.MergedDirEntries(s, p).Ok? {
      assert S.MergedDirEntries(s, p).value.Keys == ChildNames(S.View(s), p);
    }
    forall n | n in ChildNames(s.upper, p) ensures n in ChildNames(S.View(s), p) {
      ViewAt(s, Child(p, n));
    }
  }

  /** What a removal leaves. */
  function Removed(s: S.State, p: Path): S.State {
    s.(upper := s.upper - {p}, gone := S.GoneAfterRemoval(s, p))
  }

  /** Removing fails only for the layers' own reasons. */
  lemma RemoveSucceeds(s: S.State, op: Op)
    requires S.Inv(s) && Allowed(S.View(s), op)
    requires op.Unlink? || op.Rmdir?
    ensures S.Apply(s, op).Ok? <==> Succeeds(s, op)
    ensures Succeeds(s, op) ==> S.Apply(s, op) == Ok(Removed(s, op.path))
  {
    var p := op.path;
    ViewAt(s, p);
    S.ViewIsShow(s);
    S.ViewedStraight(s, p);
    BlockedMeans(s.lower, p);
    UpperNotBlocked(s, p);
    if op.Rmdir? {
      EmptyListing(s, p);
    }
  }

  lemma RemoveRefines(s: S.State, op: Op)
    requires S.Inv(s) && Allowed(S.View(s), op)
    requires op.Unlink? || op.Rmdir?
    ensures S.Apply(s, op).Ok? <==> Succeeds(s, op)
    ensures S.Apply(s, op).Ok? ==> StepsLikePlain(s, op, S.Apply(s, op).value)
  {
    RemoveSucceeds(s, op);
    if Succeeds(s, op) {
      RemovedLikePlain(s, op);
    }
  }

  lemma RemovedLikePlain(s: S.State, op: Op)
    requires S.Inv(s) && Allowed(S.View(s), op) && (op.Unlink? || op.Rmdir?) && Succeeds(s, op)
    ensures StepsLikePlain(s, op, Removed(s, op.path))
  {
    NodeRemoved(s, op.path, Removed(s, op.path));
    NothingDefaulted(S.View(s));
    S.ViewIsShow(s);
    RemovedAgrees(s, op, Removed(s, op.path), S.View(s));
    ShownSuffices(s, op, Removed(s, op.path), S.View(s));
  }

  lemma NothingDefaulted(v: Tree)
    ensures Defaulted(v, {}) == v
  {
  }

  lemma RemovedAgrees(s: S.State, op: Op, t: S.State, v: Tree)
    requires (op.Unlink? || op.Rmdir?) && Allowed(v, op) && (op.Rmdir? ==> ChildNames(v, op.path) == {})
    requires forall q :: Get(v, q) == S.Show(s, q)
    requires forall q :: S.Show(t, q) == if q == op.path then None else S.Show(s, q)
    ensures Step(v, op).Ok? && forall q :: S.Show(t, q) == Get(Step(v, op).value, q)
  {
    assert Step(v, op) == Ok(v - {op.path});
  }

  /** Above a visible path the upper layer holds directories only. */
  lemma UpperNotBlocked(s: S.State, p: Path)
    requires S.Inv(s) && p in S.View(s)
    ensures !Blocked(s.upper, p)
  {
    S.ViewIsShow(s);
    BlockedMeans(s.upper, p);
    forall a | Below(p, a) && a in s.upper ensures s.upper[a].Dir? {
      assert Within(p, a);
      AncestorsAreDirs(S.View(s), p, a);
      BelowIsStrict(p, a);
      assert Get(S.View(s), a) == S.Show(s, a);
    }
  }

  /** The layers after a rename: the node at its new path in `upper`, the old path removed. */
  function Moved(s: S.State, op: Op): S.State
    requires op.Rename? && op.to.Child? && CreateDirAll(s.upper, op.to.parent).Ok? && S.Show(s, op.path).Some?
  {
    var u := CreateDirAll(s.upper, op.to.parent).value;
    var placed := s.(upper := u[op.to := S.Show(s, op.path).value], gone := s.gone - {op.to});
    placed.(upper := placed.upper - {op.path}, gone := S.GoneAfterRemoval(placed, op.path))
  }

  /** What create_dir_all leaves at the two ends of a rename. */
  lemma RenameEnds(s: S.State, op: Op)
    requires S.Inv(s) && op.Rename? && Allowed(S.View(s), op)
    ensures CreateDirAll(s.upper, op.to.parent).Ok? && S.Show(s, op.path).Some? && !S.Show(s, op.path).value.Dir?
    ensures S.Show(s, op.to).Some? ==> !S.Show(s, op.to).value.Dir?
    ensures var u := CreateDirAll(s.upper, op.to.parent).value;
            Get(u, op.path) == Get(s.upper, op.path) && Get(u, op.to) == Get(s.upper, op.to)
  {
    S.ViewIsShow(s);
    assert Get(S.View(s), op.path) == S.Show(s, op.path) && Get(S.View(s), op.to) == S.Show(s, op.to);
    UpperDirsMade(s, op.to.parent);
    BelowIsStrict(op.to, op.to.parent);
  }

  lemma MovedShows(s: S.State, op: Op)
    requires S.Inv(s) && op.Rename? && Allowed(S.View(s), op)
    ensures CreateDirAll(s.upper, op.to.parent).Ok? && S.Show(s, op.path).Some?
    ensures S.Inv(Moved(s, op))
    ensures forall q :: S.Show(Moved(s, op), q) ==
              if q == op.to then S.Show(s, op.path)
              else if q == op.path then None
              else if Within(op.to.parent, q) && q !in s.upper then Some(Dir(DEFAULT_DIR_MODE))
              else S.Show(s, q)
  {
    RenameEnds(s, op);
    var from, to := op.path, op.to;
    UpperDirsMade(s, to.parent);
    var u := CreateDirAll(s.upper, to.parent).value;
    var n := S.Show(s, from).value;
    var placed := s.(upper := u[to := n], gone := s.gone - {to});
    var made := s.(upper := u);
    assert S.Show(made, from) == S.Show(s, from);
    assert S.Show(made, to) == S.Show(s, to);
    NodePlaced(made, to, n, placed);
    S.ViewIsShow(placed);
    assert Get(S.View(placed), from) == Some(n);
    assert from != Root;
    NodeRemoved(placed, from, Moved(s, op));
  }

  lemma RenameShows(s: S.State, op: Op)
    requires S.Inv(s) && op.Rename? && Allowed(S.View(s), op)
    ensures CreateDirAll(s.upper, op.to.parent).Ok? && S.Show(s, op.path).Some?
    ensures StepsLikePlain(s, op, Moved(s, op))
  {
    MovedShows(s, op);
    DefaultedIsSame(S.View(s), CopiedDirs(s, op), op);
    DefaultedShows(s, op, op.to.parent);
    ViewParents(s, op.to);
    ViewAt(s, op.path);
    MovedAgrees(s, op, Moved(s, op), S.View(s), Defaulted(S.View(s), CopiedDirs(s, op)));
    ShownSuffices(s, op, Moved(s, op), Defaulted(S.View(s), CopiedDirs(s, op)));
  }

  lemma MovedAgrees(s: S.State, op: Op, t: S.State, view: Tree, v: Tree)
    requires op.Rename? && Allowed(v, op) && Get(view, op.path) == S.Show(s, op.path)
    requires forall q :: Within(op.to.parent, q) ==> IsDir(view, q)
    requires forall q :: Get(v, q) ==
               if Within(op.to.parent, q) && q !in s.upper && IsDir(view, q) then Some(Dir(DEFAULT_DIR_MODE))
                   else S.Show(s, q)
    requires forall q :: S.Show(t, q) ==
               if q == op.to then S.Show(s, op.path)
               else if q == op.path then None
               else if Within(op.to.parent, q) && q !in s.upper then Some(Dir(DEFAULT_DIR_MODE))
               else S.Show(s, q)
    ensures forall q :: S.Show(t, q) == Get(Step(v, op).value, q)
  {
    assert Step(v, op) == Ok((v - {op.path})[op.to := v[op.path]]);
    assert Get(v, op.path) == S.Show(s, op.path);
  }

  lemma ViewAt(s: S.State, p: Path)
    requires S.Inv(s)
    ensures Get(S.View(s), p) == S.Show(s, p)
  {
    S.ViewIsShow(s);
  }

  /** Everything above a path whose parent is visible is a visible directory. */
  lemma ViewParents(s: S.State, p: Path)
    requires S.Inv(s) && p.Child? && IsDir(S.View(s), p.parent)
    ensures forall q :: Within(p.parent, q) ==> IsDir(S.View(s), q)
  {
    S.ViewIsShow(s);
    forall q | Within(p.parent, q) ensures IsDir(S.View(s), q) {
      AncestorsAreDirs(S.View(s), p.parent, q);
    }
  }

  /** Renaming a node of the upper layer */
  lemma RenameOfUpper(s: S.State, op: Op)
    requires S.Inv(s) && op.Rename? && Allowed(S.View(s), op) && Reachable(s, op) && op.path in s.upper
    ensures CreateDirAll(s.upper, op.to.parent).Ok? && S.Show(s, op.path).Some?
    ensures S.Apply(s, op) == Ok(Moved(s, op))
  {
    RenameEnds(s, op);
    ViewAt(s, op.path);
    FoundStraight(s, op.path);
    var u := CreateDirAll(s.upper, op.to.parent).value;
    var n := s.upper[op.path];
    assert u[op.to := n] - {op.path} == (u - {op.path})[op.to := n];
    UpperTargetIsNoDir(s, op);
  }

  lemma UpperTargetIsNoDir(s: S.State, op: Op)
    requires S.Inv(s) && op.Rename? && Allowed(S.View(s), op)
    ensures op.to in s.upper ==> !s.upper[op.to].Dir? && op.to !in s.gone
  {
    ViewAt(s, op.to);
  }

  /** Renaming a node of the snapshot */
  lemma RenameOfLower(s: S.State, op: Op)
    requires S.Inv(s) && op.Rename? && Allowed(S.View(s), op) && Reachable(s, op) && op.path !in s.upper
    ensures CreateDirAll(s.upper, op.to.parent).Ok? && S.Show(s, op.path) == Some(S.View(s)[op.path])
    ensures var copied := S.CopyOnto(CreateDirAll(s.upper, op.to.parent).value, s.links, op.to, S.View(s)[op.path]);
            && (S.Apply(s, op).Ok? <==> copied.Ok?)
            && (copied.Ok? ==> S.Apply(s, op) == Ok(s.(upper := copied.value, gone := s.gone - {op.to} + {op.path})))
  {
    RenameEnds(s, op);
    ViewAt(s, op.path);
    FoundStraight(s, op.path);
    assert S.Found(s.(upper := CreateDirAll(s.upper, op.to.parent).value), op.path) == S.Found(s, op.path);
  }

  lemma LowerMoved(s: S.State, op: Op)
    requires S.Inv(s) && op.Rename? && Allowed(S.View(s), op) && op.path !in s.upper && !RenamesOntoLink(s, op)
    ensures CreateDirAll(s.upper, op.to.parent).Ok? && S.Show(s, op.path) == Some(S.View(s)[op.path])
    ensures var copied := S.CopyOnto(CreateDirAll(s.upper, op.to.parent).value, s.links, op.to, S.View(s)[op.path]);
            copied.Ok? ==> s.(upper := copied.value, gone := s.gone - {op.to} + {op.path}) == Moved(s, op)
  {
    RenameEnds(s, op);
    ViewAt(s, op.path);
    S.ViewIsShow(s);
    S.ViewedStraight(s, op.path);
    var u := CreateDirAll(s.upper, op.to.parent).value;
    var n := S.View(s)[op.path];
    assert u[op.to := n] - {op.path} == u[op.to := n];
  }

  lemma CopySucceeds(s: S.State, op: Op)
    requires S.Inv(s) && op.Rename? && Allowed(S.View(s), op) && op.path !in s.upper
    ensures CreateDirAll(s.upper, op.to.parent).Ok?
    ensures S.CopyOnto(CreateDirAll(s.upper, op.to.parent).value, s.links, op.to, S.View(s)[op.path]).Ok?
            <==> Succeeds(s, op)
  {
    RenameEnds(s, op);
    UpperTargetIsNoDir(s, op);
    if op.to in s.upper {
      assert CreateDirAll(s.upper, op.to.parent) == Ok(s.upper);
    }
  }

  lemma RenameRefines(s: S.State, op: Op)
    requires S.Inv(s) && op.Rename? && Allowed(S.View(s), op) && Reachable(s, op)
    ensures S.Apply(s, op).Ok? <==> Succeeds(s, op)
    ensures S.Apply(s, op).Ok? && !RenamesOntoLink(s, op) ==> StepsLikePlain(s, op, S.Apply(s, op).value)
  {
    RenameShows(s, op);
    if op.path in s.upper {
      RenameOfUpper(s, op);
    } else {
      RenameOfLower(s, op);
      CopySucceeds(s, op);
      if !RenamesOntoLink(s, op) {
        LowerMoved(s, op);
      }
    }
  }

  /** A rename keeps the invariant even when it writes through a link. */
  lemma RenameKeepsInv(s: S.State, op: Op)
    requires S.Inv(s) && op.Rename? && Allowed(S.View(s), op) && Reachable(s, op)
    ensures S.Apply(s, op).Ok? ==> S.Inv(S.Apply(s, op).value)
  {
    RenameRefines(s, op);
    if RenamesOntoLink(s, op) {
      RenameOfLower(s, op);
      ViewAt(s, op.path);
      ViewAt(s, op.to);
      assert CreateDirAll(s.upper, op.to.parent) == Ok(s.upper);
    }
  }

  /** The refinement: an allowed operation that meets no link without an end succeeds exactly under `Succeeds`; and
      if no link is in its way it then keeps the layer invariant and the lower layer, and changes the view as the
      plain operation does. */
  lemma ApplyRefines(s: S.State, op: Op)
    requires S.Inv(s) && Allowed(S.View(s), op)
    ensures Reachable(s, op) ==> (S.Apply(s, op).Ok? <==> Succeeds(s, op))
    ensures S.Apply(s, op).Ok? && Direct(s, op) ==> StepsLikePlain(s, op, S.Apply(s, op).value)
  {
    match op
    case Create(_, _) => NewNodeRefines(s, op);
    case Mkdir(_, _) =>
      NewNodeApplied(s, op);
      if !MakesOverLink(s, op) {
        NewNodeRefines(s, op);
      }
    case Symlink(_, _) => NewNodeRefines(s, op);
    case Write(_, _, _, _) => WriteRefines(s, op);
    case SetAttr(p, _, _) => if ReachableAt(s, p) { WriteRefines(s, op); }
    case Unlink(_) => RemoveRefines(s, op);
    case Rmdir(_) => RemoveRefines(s, op);
    case Rename(_, _) => if Reachable(s, op) { RenameRefines(s, op); }
  }

  /** Which error a failing operation reports */
  lemma ApplyRefuses(s: S.State, op: Op)
    requires S.Inv(s) && Allowed(S.View(s), op) && Reachable(s, op) && S.Apply(s, op).Err?
    ensures op.Unlink? || op.Rmdir? || op.Rename?
    ensures S.Apply(s, op)
            == if op.Rmdir? && op.path in s.lower && s.lower[op.path].File? then Err(NotADirectory)
               else if op.Rmdir? && ChildNames(S.View(s), op.path) != {} then Err(NotEmpty)
               else Err(Io)
  {
    ApplyRefines(s, op);
    if op.Unlink? || op.Rmdir? {
      RemovalRefused(s, op);
    }
  }

  lemma RemovalRefused(s: S.State, op: Op)
    requires S.Inv(s) && Allowed(S.View(s), op) && (op.Unlink? || op.Rmdir?) && S.Apply(s, op).Err?
    ensures S.Apply(s, op)
            == if op.Rmdir? && op.path in s.lower && s.lower[op.path].File? then Err(NotADirectory)
               else if op.Rmdir? && ChildNames(S.View(s), op.path) != {} then Err(NotEmpty)
               else Err(Io)
  {
    ViewAt(s, op.path);
    S.ViewIsShow(s);
    S.ViewedStraight(s, op.path);
    UpperNotBlocked(s, op.path);
    if op.Rmdir? {
      S.DirLeadsStraight(s, op.path);
      ListingAgreesWithView(s, op.path);
      EmptyListing(s, op.path);
    }
  }

  /** What the env sees after an operation that succeeds, no link in its way: the operation's own paths byte by byte
      and bit by bit, and everything else as before. */
  lemma ApplyLeaves(s: S.State, op: Op)
    requires S.Inv(s) && Allowed(S.View(s), op) && Direct(s, op) && S.Apply(s, op).Ok?
    ensures Leaves(S.View(s), op, S.View(S.Apply(s, op).value))
  {
    ApplyRefines(s, op);
    var v, w := Defaulted(S.View(s), CopiedDirs(s, op)), S.View(S.Apply(s, op).value);
    DefaultedIsSame(S.View(s), CopiedDirs(s, op), op);
    StepLeaves(v, op);
    LeavesDespiteModes(S.View(s), v, op, w);
  }
}

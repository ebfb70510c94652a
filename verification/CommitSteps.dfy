/** The single steps by which an env is written back to the host, and what each keeps. */
module CommitSteps {
  import opened Replies
  import opened Trees
  import opened WhiteoutStore
  import opened TreeComparison
  import opened PathLookup
  import S = OverlayState

  // ----- what the steps do to one tree

  /** apply_upper_path with replace_path_from, at a place */
  function ApplyUpperPath(n: Node, t: Tree, v: Path): Reply<Tree>
    requires v.Child?
  {
    if n.Dir? then
      var cleared := if v in t && !t[v].Dir? then RemoveRecursively(t, v) else t;
      match CreateDirAll(cleared, v)
      case Ok(u) => Ok(u[v := n])
      case Err(e) => Err(e)
    else
      match StatIfExists(t, v)
      case Err(e) => Err(e)
      case Ok(_) =>
        match CreateDirAll(RemoveRecursively(t, v), v.parent)
        case Ok(u) => Ok(u[v := n])
        case Err(e) => Err(e)
  }

  /** The tree once what stands in the way at `v` is gone. */
  function Cleared(n: Node, t: Tree, v: Path): Tree {
    if n.Dir? && IsDir(t, v) then t else RemoveRecursively(t, v)
  }

  /** The tree once the directories are made as well: the node's parents, or a directory itself, with a mode it
      will not keep. */
  function Made(n: Node, t: Tree, v: Path): Tree
    requires v.Child?
  {
    match CreateDirAll(Cleared(n, t, v), if n.Dir? then v else v.parent)
    case Ok(u) => u
    case Err(_) => Cleared(n, t, v)
  }

  /** The disk after each of the three calls that apply a node */
  datatype Trail = Trail(cleared: Disk, made: Disk, done: Disk)

  /** apply_upper_path at a place. Making a directory where a link leads nowhere fails. */
  function ApplyAt(n: Node, k: Disk, follow: Follow, r: Place): Reply<Trail>
    requires r.path.Child?
  {
    if n.Dir? && IsLink(k, r) && follow(k, r).path !in k.On(follow(k, r).side) then Err(AlreadyExists)
    else
      var t := k.On(r.side);
      match ApplyUpperPath(n, t, r.path)
      case Err(e) => Err(e)
      case Ok(u) => Ok(Trail(k.With(r.side, Cleared(n, t, r.path)), k.With(r.side, Made(n, t, r.path)),
                             k.With(r.side, u)))
  }

  /** Applying a node at a place fails below a non-directory, and if a directory is to be made over a link that leads
      to nothing; otherwise the node is there afterwards. */
  lemma ApplyAtMeans(n: Node, k: Disk, follow: Follow, r: Place)
    requires k.Valid() && r.path.Child?
    ensures var dead := n.Dir? && Get(k.On(r.side), r.path).Some? && k.On(r.side)[r.path].Link?
                        && Get(k.On(follow(k, r).side), follow(k, r).path) == None;
            && (ApplyAt(n, k, follow, r).Ok? <==> !Blocked(k.On(r.side), r.path) && !dead)
            && (dead ==> ApplyAt(n, k, follow, r) == Err(AlreadyExists))
            && (!dead && Blocked(k.On(r.side), r.path) ==> ApplyAt(n, k, follow, r) == Err(NotADirectory))
    ensures ApplyAt(n, k, follow, r).Ok? ==> Get(ApplyAt(n, k, follow, r).value.done.On(r.side), r.path) == Some(n)
  {
    ApplyUpperPathEffect(n, k.On(r.side), r.path);
  }

  /** remove_path_recursively_if_exists, at a place */
  function RemoveIfExists(t: Tree, p: Path): Reply<Tree> {
    match StatIfExists(t, p)
    case Err(e) => Err(e)
    case Ok(None) => Ok(t)
    case Ok(Some(_)) => Ok(RemoveRecursively(t, p))
  }

  /** Making the directories a node needs and putting it there leaves every other node as it was. */
  lemma MakeAndPut(t: Tree, v: Path, n: Node)
    requires WellFormed(t) && v.Child? && !Blocked(t, v)
    requires if n.Dir? then v in t ==> t[v].Dir? else v !in t
    ensures CreateDirAll(t, if n.Dir? then v else v.parent).Ok?
    ensures var u := CreateDirAll(t, if n.Dir? then v else v.parent).value[v := n];
            && WellFormed(u)
            && (forall q :: q != v && q in t ==> Get(u, q) == Get(t, q))
            && (forall q :: q != v && q !in t && q in u ==> Below(v, q) && u[q].Dir?)
  {
    var target := if n.Dir? then v else v.parent;
    BlockedMeans(t, v);
    BlockedMeans(t, v.parent);
    assert Below(v, v.parent);
    CreateDirAllEffect(t, target);
    var made := CreateDirAll(t, target).value;
    assert v.parent != v;
    forall q | q != v ensures Get(made[v := n], q) == if q in t then Get(t, q)
                                                     else if Below(v, q) then Some(Dir(DEFAULT_DIR_MODE)) else None {
      assert Get(made, q) == if q in t then Get(t, q) else if Within(target, q) then Some(Dir(DEFAULT_DIR_MODE))
             else None;
    }
    if n.Dir? {
      PutKeepsShape(made, v, n);
    } else {
      forall q | Below(q, v) ensures q !in made {
        BelowIsStrict(q, v);
        NothingBelow(t, q, v);
        assert Get(made[v := n], q) == Get(made, q);
      }
      assert forall q :: q in made && q.Child? && q.parent == v ==> Below(q, v);
    }
  }

  /** The trees on the way differ from the first one in the same places as the last one does. */
  lemma OnTheWay(n: Node, t: Tree, v: Path)
    requires WellFormed(t) && v.Child? && !Blocked(t, v)
    ensures ApplyUpperPath(n, t, v) == Ok(Made(n, t, v)[v := n])
    ensures WellFormed(Cleared(n, t, v)) && WellFormed(Made(n, t, v))
    ensures forall q :: !Within(q, v) ==> Get(Cleared(n, t, v), q) == Get(t, q)
    ensures forall q :: q != v ==> Get(Made(n, t, v), q) == Get(Made(n, t, v)[v := n], q)
  {
    ClearedEffect(n, t, v);
    MakeAndPut(Cleared(n, t, v), v, n);
    CreateDirAllEffect(Cleared(n, t, v), if n.Dir? then v else v.parent);
  }

  /** Applying a node changes its own subtree and may make missing ancestors; it fails only below a
      non-directory. A directory put over a directory keeps what is in it. */
  lemma ApplyUpperPathEffect(n: Node, t: Tree, v: Path)
    requires WellFormed(t) && v.Child?
    ensures ApplyUpperPath(n, t, v).Ok? <==> !Blocked(t, v)
    ensures ApplyUpperPath(n, t, v).Err? ==> ApplyUpperPath(n, t, v) == Err(NotADirectory)
    ensures ApplyUpperPath(n, t, v).Ok? ==>
              var u := ApplyUpperPath(n, t, v).value;
              && WellFormed(u) && Get(u, v) == Some(n)
              && (forall q :: !Within(q, v) && q in t ==> Get(u, q) == Get(t, q))
              && (forall q :: !Within(q, v) && q !in t && q in u ==> Below(v, q) && u[q].Dir?)
              && (forall q :: Below(q, v) ==> Get(u, q) == if n.Dir? && IsDir(t, v) then Get(t, q) else None)
  {
    if Blocked(t, v) {
      ApplyBlocked(n, t, v);
    } else {
      var cleared := Cleared(n, t, v);
      ClearedEffect(n, t, v);
      MakeAndPut(cleared, v, n);
      var u := CreateDirAll(cleared, if n.Dir? then v else v.parent).value[v := n];
      assert ApplyUpperPath(n, t, v) == Ok(u);
      forall q | Below(q, v) ensures Get(u, q) == if n.Dir? && IsDir(t, v) then Get(t, q) else None {
        BelowIsStrict(q, v);
        assert Within(q, v);
        assert q in u ==> q in cleared;
        assert q in cleared ==> Get(u, q) == Get(cleared, q);
      }
    }
  }

  lemma ClearedEffect(n: Node, t: Tree, v: Path)
    requires WellFormed(t) && v.Child? && !Blocked(t, v)
    ensures WellFormed(Cleared(n, t, v)) && !Blocked(Cleared(n, t, v), v)
    ensures v !in t ==> Cleared(n, t, v) == t
    ensures forall q :: Get(Cleared(n, t, v), q) == if Within(q, v) && !(n.Dir? && IsDir(t, v)) then None else Get(t, q)
    ensures Stat(t, v) != Err(NotADirectory)
  {
    RemoveRecursivelyKeepsShape(t, v);
    BlockedMeans(t, v);
    BlockedMeans(Cleared(n, t, v), v);
    if v !in t {
      forall q | q in t ensures !Within(q, v) {
        if Within(q, v) {
          AncestorsAreDirs(t, q, v);
        }
      }
      assert Cleared(n, t, v) == t;
    }
  }

  lemma ApplyBlocked(n: Node, t: Tree, v: Path)
    requires WellFormed(t) && v.Child? && Blocked(t, v)
    ensures ApplyUpperPath(n, t, v) == Err(NotADirectory)
  {
    BlockedMeans(t, v);
    CreateDirAllEffect(t, v);
    CreateDirAllRefuses(t, v);
  }

  // ----- what the steps keep

  /** Host and snapshot agree everywhere below the source directory. */
  ghost predicate AgreeBelow(h: Tree, l: Tree, source: Path) {
    forall q :: Below(q, source) ==> Get(h, q) == Get(l, q)
  }

  /** Wherever below the source the host differed from the snapshot at the start, neither has changed since. */
  ghost predicate EditsKept(h0: Tree, l0: Tree, h: Tree, l: Tree, source: Path) {
    forall q :: Below(q, source) && Get(h0, q) != Get(l0, q) ==> Get(h, q) == Get(h0, q) && Get(l, q) == Get(l0, q)
  }

  /** Nothing that was outside the source directory has changed; `t` may have gained directories above it. */
  ghost predicate OutsideKept(t0: Tree, t: Tree, source: Path) {
    && (forall q :: !Below(q, source) && q in t0 ==> Get(t, q) == Get(t0, q))
    && (forall q :: !Below(q, source) && q !in t0 && q in t ==> Within(source, q) && t[q].Dir?)
  }

  /** Every path strictly between the source and `v` exists in `t`. */
  ghost predicate WayExists(t: Tree, v: Path, source: Path) {
    forall a :: Below(v, a) && Below(a, source) ==> IsDir(t, a)
  }

  /** A node applied to a tree: what changes lies at or below `v`, or above the source. */
  lemma ApplyStaysInside(n: Node, t: Tree, v: Path, source: Path)
    requires WellFormed(t) && Below(v, source) && WayExists(t, v, source) && ApplyUpperPath(n, t, v).Ok?
    ensures var u := ApplyUpperPath(n, t, v).value;
            && (forall q :: Below(q, source) && !Within(q, v) ==> Get(u, q) == Get(t, q))
            && OutsideKept(t, u, source)
            && (IsDir(t, v.parent) ==> forall q :: !Within(q, v) ==> Get(u, q) == Get(t, q))
  {
    ApplyUpperPathEffect(n, t, v);
    var u := ApplyUpperPath(n, t, v).value;
    forall q | Below(q, source) && !Within(q, v) ensures Get(u, q) == Get(t, q) {
      assert q !in t && q in u ==> Below(v, q);
    }
    forall q | !Below(q, source) && q !in t && q in u ensures Within(source, q) && u[q].Dir? {
      if Within(q, v) {
        WithinBelow(q, v, source);
      } else {
        WithinComparable(v, source, q);
      }
    }
    forall q | !Below(q, source) && q in t ensures Get(u, q) == Get(t, q) {
      if Within(q, v) {
        WithinBelow(q, v, source);
      }
    }
    if IsDir(t, v.parent) {
      forall q | !Within(q, v) ensures Get(u, q) == Get(t, q) {
        if Below(v, q) {
          AncestorsAreDirs(t, v.parent, q);
        }
      }
    }
  }

  /** The same of the trees on the way. */
  lemma OnTheWayStaysInside(n: Node, t: Tree, v: Path, source: Path)
    requires WellFormed(t) && Below(v, source) && WayExists(t, v, source) && ApplyUpperPath(n, t, v).Ok?
    ensures StaysInside(t, Cleared(n, t, v), v, source) && StaysInside(t, Made(n, t, v), v, source)
  {
    ApplyUpperPathEffect(n, t, v);
    OnTheWay(n, t, v);
    ApplyStaysInside(n, t, v, source);
    var made, u := Made(n, t, v), ApplyUpperPath(n, t, v).value;
    forall q | Within(q, v) ensures Below(q, source) {
      WithinBelow(q, v, source);
    }
    forall q | !Within(q, v) ensures Get(made, q) == Get(u, q) {
    }
  }

  /** What changed lies at or below `v`, or is new above the source. */
  ghost predicate StaysInside(t: Tree, u: Tree, v: Path, source: Path) {
    && (forall q :: Below(q, source) && !Within(q, v) ==> Get(u, q) == Get(t, q))
    && OutsideKept(t, u, source)
  }

  lemma WithinBelow(q: Path, v: Path, source: Path)
    requires Within(q, v) && Below(v, source)
    ensures Below(q, source)
  {
    if q != v {
      WithinTransitive(q.parent, v, source);
    }
  }

  /** After a passed conflict check, applying a node to the host, or to host and snapshot, keeps all edits. */
  lemma ApplyKeepsEdits(h0: Tree, l0: Tree, h: Tree, l: Tree, source: Path, v: Path, n: Node)
    requires WellFormed(h) && WellFormed(l) && Below(v, source) && WayExists(h, v, source) && WayExists(l, v, source)
    requires EditsKept(h0, l0, h, l, source) && SameSubtree(l, h, v)
    requires ApplyUpperPath(n, h, v).Ok? && ApplyUpperPath(n, l, v).Ok?
    ensures EditsKept(h0, l0, ApplyUpperPath(n, h, v).value, l, source)
    ensures EditsKept(h0, l0, ApplyUpperPath(n, h, v).value, ApplyUpperPath(n, l, v).value, source)
  {
    ApplyStaysInside(n, h, v, source);
    ApplyStaysInside(n, l, v, source);
    forall q | Below(q, source) && Within(q, v) ensures Get(h0, q) == Get(l0, q) {
      assert Get(l, q) == Get(h, q);
    }
  }

  lemma RemoveKeepsEdits(h0: Tree, l0: Tree, h: Tree, l: Tree, source: Path, w: Path)
    requires EditsKept(h0, l0, h, l, source) && SameSubtree(l, h, w)
    ensures EditsKept(h0, l0, RemoveRecursively(h, w), l, source)
    ensures EditsKept(h0, l0, RemoveRecursively(h, w), RemoveRecursively(l, w), source)
  {
    forall q | Below(q, source) && Within(q, w) ensures Get(h0, q) == Get(l0, q) {
      assert Get(l, q) == Get(h, q);
    }
  }

  /** A subtree that was the same on host and snapshot at the start still is. */
  ghost predicate SameKept(h0: Tree, l0: Tree, h: Tree, l: Tree, source: Path) {
    forall p :: Below(p, source) && SameSubtree(l0, h0, p) ==> SameSubtree(l, h, p)
  }

  /** Applying the same node to both keeps a subtree the same that was. */
  lemma ApplyKeepsSame(h: Tree, l: Tree, source: Path, v: Path, n: Node, p: Path)
    requires WellFormed(h) && WellFormed(l) && Below(v, source) && WayExists(h, v, source) && WayExists(l, v, source)
    requires Below(p, source) && SameSubtree(l, h, p) && ApplyUpperPath(n, h, v).Ok? && ApplyUpperPath(n, l, v).Ok?
    ensures SameSubtree(ApplyUpperPath(n, l, v).value, ApplyUpperPath(n, h, v).value, p)
  {
    ApplyStaysInside(n, h, v, source);
    ApplyStaysInside(n, l, v, source);
    ApplyUpperPathEffect(n, h, v);
    ApplyUpperPathEffect(n, l, v);
    forall q | Within(q, p)
      ensures Get(ApplyUpperPath(n, l, v).value, q) == Get(ApplyUpperPath(n, h, v).value, q)
    {
      WithinBelow(q, p, source);
      assert Get(l, q) == Get(h, q);
      if Below(q, v) {
        WithinComparable(q, v, p);
        if !Within(v, p) {
          if !IsDir(h, v) {
            NothingBelow(h, q, v);
          }
          if !IsDir(l, v) {
            NothingBelow(l, q, v);
          }
        } else {
          assert Get(l, v) == Get(h, v);
        }
      }
    }
  }

  /** Agreement below the source is agreement of every subtree below it. */
  lemma AgreementIsSameSubtree(h: Tree, l: Tree, source: Path)
    ensures AgreeBelow(h, l, source) <==> forall p :: Below(p, source) ==> SameSubtree(l, h, p)
  {
    if AgreeBelow(h, l, source) {
      forall p | Below(p, source) ensures SameSubtree(l, h, p) {
        forall q | Within(q, p) ensures Get(l, q) == Get(h, q) {
          WithinBelow(q, p, source);
        }
      }
    }
    if forall p :: Below(p, source) ==> SameSubtree(l, h, p) {
      forall q | Below(q, source) ensures Get(h, q) == Get(l, q) {
        assert SameSubtree(l, h, q) && Within(q, q);
      }
    }
  }

  // ----- what the steps leave visible

  /** Nothing shows below what shows as no directory. */
  lemma NothingShowsBelow(s: S.State, q: Path, v: Path)
    requires S.Inv(s) && Below(q, v) && !(S.Show(s, v).Some? && S.Show(s, v).value.Dir?)
    ensures S.Show(s, q) == None
  {
    S.ViewIsShow(s);
    assert Get(S.View(s), v) == S.Show(s, v) && Get(S.View(s), q) == S.Show(s, q);
    NothingBelow(S.View(s), q, v);
  }

  /** Copying an upper node into the snapshot beneath it changes nothing the env sees. */
  lemma ApplyToLowerShows(s: S.State, v: Path)
    requires S.Inv(s) && v.Child? && v in s.upper && IsDir(s.lower, v.parent)
    ensures ApplyUpperPath(s.upper[v], s.lower, v).Ok?
    ensures var t := s.(lower := ApplyUpperPath(s.upper[v], s.lower, v).value);
            S.Inv(t) && forall q :: S.Show(t, q) == S.Show(s, q)
  {
    BlockedMeans(s.lower, v);
    BlockedMeans(s.lower, v.parent);
    assert !Blocked(s.lower, v);
    ApplyUpperPathEffect(s.upper[v], s.lower, v);
    var l := ApplyUpperPath(s.upper[v], s.lower, v).value;
    LowerAppliedAdds(s, v, l);
    LowerAppliedShows(s, v, l);
    LowerAppliedInv(s, v, l);
  }

  /** The snapshot after an upper node is put into it. */
  ghost predicate LowerApplied(s: S.State, v: Path, l: Tree)
    requires v in s.upper
  {
    var n := s.upper[v];
    && WellFormed(l) && Get(l, v) == Some(n)
    && (forall q :: !Within(q, v) && q in s.lower ==> Get(l, q) == Get(s.lower, q))
    && (forall q :: !Within(q, v) && q !in s.lower && q in l ==> Below(v, q) && l[q].Dir?)
    && (forall q :: Below(q, v) ==> Get(l, q) == if n.Dir? && IsDir(s.lower, v) then Get(s.lower, q) else None)
  }

  /** Nothing but the node itself is new. */
  lemma LowerAppliedAdds(s: S.State, v: Path, l: Tree)
    requires S.Inv(s) && v.Child? && v in s.upper && IsDir(s.lower, v.parent) && LowerApplied(s, v, l)
    ensures forall q :: q != v && q in l ==> Get(s.lower, q) == Some(l[q])
  {
    forall q | q != v && q in l ensures Get(s.lower, q) == Some(l[q]) {
      assert Get(l, q) == Some(l[q]);
      if !Within(q, v) && q !in s.lower {
        AncestorsAreDirs(s.lower, v.parent, q);
      }
    }
  }

  lemma LowerAppliedShows(s: S.State, v: Path, l: Tree)
    requires S.Inv(s) && v in s.upper && LowerApplied(s, v, l)
    requires forall q :: q != v && q in l ==> Get(s.lower, q) == Some(l[q])
    ensures forall q :: S.Show(s.(lower := l), q) == S.Show(s, q)
  {
    forall q ensures S.Show(s.(lower := l), q) == S.Show(s, q) {
      if Below(q, v) {
        if !s.upper[v].Dir? {
          NothingShowsBelow(s, q, v);
        } else if !IsDir(s.lower, v) {
          NothingBelow(s.lower, q, v);
        }
      }
    }
  }

  lemma LowerAppliedInv(s: S.State, v: Path, l: Tree)
    requires S.Inv(s) && v.Child? && v in s.upper && LowerApplied(s, v, l)
    requires forall q :: q != v && q in l ==> Get(s.lower, q) == Some(l[q])
    ensures S.Inv(s.(lower := l))
  {
    forall c | c in l && c.Child? && (c.parent in s.gone || (c.parent in s.upper && !s.upper[c.parent].Dir?))
      ensures c in s.gone
    {
      if c != v {
        assert Get(s.lower, c) == Some(l[c]);
      }
    }
    forall p | p in l && l[p].Link? && p in s.upper ensures !s.upper[p].Dir? {
      if p != v {
        assert Get(s.lower, p) == Some(l[p]);
      }
    }
  }

  /** Nor does clearing the snapshot's path first, and making the directory. */
  lemma LowerOnTheWayShows(s: S.State, v: Path)
    requires S.Inv(s) && v.Child? && v in s.upper && IsDir(s.lower, v.parent)
    ensures SameInSight(s, Cleared(s.upper[v], s.lower, v), v)
    ensures SameInSight(s, Made(s.upper[v], s.lower, v), v)
  {
    var n, cleared := s.upper[v], Cleared(s.upper[v], s.lower, v);
    LowerClearedShows(s, v);
    assert v.parent != v && !Within(v.parent, v) by {
      BelowIsStrict(v, v.parent);
    }
    if n.Dir? && !IsDir(s.lower, v) {
      LowerDirMade(s.(lower := cleared), v);
    }
  }

  /** With another tree in the snapshot's place the env sees the same, and nothing else than `v` is new in it. */
  ghost predicate SameInSight(s: S.State, l: Tree, v: Path) {
    && S.Inv(s.(lower := l)) && (forall q :: S.Show(s.(lower := l), q) == S.Show(s, q))
    && forall q :: !Within(q, v) ==> Get(l, q) == Get(s.lower, q)
  }

  lemma LowerClearedShows(s: S.State, v: Path)
    requires S.Inv(s) && v.Child? && v in s.upper
    ensures SameInSight(s, Cleared(s.upper[v], s.lower, v), v)
  {
    var n := s.upper[v];
    if !(n.Dir? && IsDir(s.lower, v)) {
      RemoveRecursivelyKeepsShape(s.lower, v);
      forall q ensures S.Show(s.(lower := RemoveRecursively(s.lower, v)), q) == S.Show(s, q) {
        if Below(q, v) {
          if n.Dir? {
            NothingBelow(s.lower, q, v);
          } else {
            NothingShowsBelow(s, q, v);
            NothingBelow(s.upper, q, v);
          }
        }
      }
    }
  }

  lemma LowerDirMade(s: S.State, v: Path)
    requires S.Inv(s) && v.Child? && v in s.upper && s.upper[v].Dir? && v !in s.lower && IsDir(s.lower, v.parent)
    ensures CreateDirAll(s.lower, v) == Ok(s.lower[v := Dir(DEFAULT_DIR_MODE)])
    ensures SameInSight(s, s.lower[v := Dir(DEFAULT_DIR_MODE)], v)
  {
    var l := s.lower[v := Dir(DEFAULT_DIR_MODE)];
    assert v.parent != v;
    forall c | c in l && c.Child? && (c.parent in s.gone || (c.parent in s.upper && !s.upper[c.parent].Dir?))
      ensures c in s.gone
    {
      assert v.parent in s.upper;
      assert c != v;
    }
  }

  /** Deleting a whited-out path from the snapshot changes nothing the env sees. */
  lemma RemoveFromLowerShows(s: S.State, w: Path)
    requires S.Inv(s) && w in s.gone
    ensures var t := s.(lower := RemoveRecursively(s.lower, w));
            S.Inv(t) && forall q :: S.Show(t, q) == S.Show(s, q)
  {
    RemoveRecursivelyKeepsShape(s.lower, w);
    forall q | Within(q, w) ensures S.Show(s, q) == None && q !in s.upper {
      if q != w {
        NothingShowsBelow(s, q, w);
        NothingBelow(s.upper, q, w);
      }
    }
  }

  /** Dropping an upper leaf whose copy the snapshot holds changes nothing the env sees. */
  lemma DropAppliedUpper(s: S.State, v: Path)
    requires S.Inv(s) && v.Child? && v in s.upper && ChildNames(s.upper, v) == {}
    ensures S.Inv(s.(upper := s.upper - {v}))
    ensures forall q :: q != v ==> S.Show(s.(upper := s.upper - {v}), q) == S.Show(s, q)
    ensures Get(s.lower, v) == Some(s.upper[v]) ==> S.Show(s.(upper := s.upper - {v}), v) == S.Show(s, v)
  {
    assert forall q :: q in s.upper && q.Child? && q.parent == v ==> q.name in ChildNames(s.upper, v);
  }

  /** Dropping a whiteout whose path the snapshot no longer has changes nothing the env sees. */
  lemma DropAppliedWhiteout(s: S.State, w: Path)
    requires S.Inv(s) && w in s.gone && w !in s.lower
    ensures S.Inv(s.(gone := s.gone - {w}))
    ensures forall q :: S.Show(s.(gone := s.gone - {w}), q) == S.Show(s, q)
  {
  }
}

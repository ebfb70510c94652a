/** Operations with a symbolic link in their way: when the layers show something else than the plain tree does. */
module LinksInTheWay {
  import opened Replies
  import opened Trees
  import opened PlainTree
  import opened WhiteoutStore
  import opened OverlayRefinement
  import opened OverlayRuns
  import S = OverlayState

  /** Behind the link at `p` there is nothing that a directory in its place would show. */
  ghost predicate NothingBeyond(s: S.State, p: Path) {
    forall c: Path :: c.Child? && c.parent == p && c !in s.gone && c in s.links.beyond ==> s.links.beyond[c].Err?
  }

  // ----- mkdir over a link of the snapshot

  /** The state as it would be without the link. */
  function Unlinked(s: S.State, p: Path): S.State {
    s.(lower := s.lower - {p})
  }

  lemma UnlinkedShows(s: S.State, op: Op)
    requires S.Inv(s) && Allowed(S.View(s), op) && MakesOverLink(s, op)
    ensures var w := Unlinked(s, op.path);
            && S.Inv(w) && S.View(w) == S.View(s) && Allowed(S.View(w), op) && !MakesOverLink(w, op)
            && op.path in s.gone && op.path !in s.upper
  {
    S.ViewIsShow(s);
    var p := op.path;
    assert Get(S.View(s), p) == S.Show(s, p);
    var w := Unlinked(s, p);
    LinkIsLeaf(s.lower, p);
    S.ViewIsShow(w);
    forall q ensures Get(S.View(w), q) == Get(S.View(s), q) {
      assert S.Show(w, q) == S.Show(s, q);
    }
    TreesEqual(S.View(w), S.View(s));
  }

  lemma LinkIsLeaf(t: Tree, p: Path)
    requires WellFormed(t) && p in t && t[p].Link? && p != Root
    ensures WellFormed(t - {p})
    ensures forall q :: Below(q, p) ==> q !in t
  {
    forall q | Below(q, p) ensures q !in t {
      NothingBelow(t, q, p);
    }
    assert forall q :: q in t && q.Child? && q.parent == p ==> Below(q, p);
  }

  /** Apart from what lies below it, the link makes no difference to the new directory. */
  lemma {:induction false} SameButBelow(t: S.State, w: S.State, p: Path, q: Path)
    requires p.Child? && p in t.lower && p in t.upper && p !in t.gone && w == Unlinked(t, p)
    requires WellFormed(t.lower) && t.lower[p].Link? && !Below(q, p)
    ensures S.Resolved(w, q) == S.Resolved(t, q) && S.Visible(w, q) == S.Visible(t, q)
  {
    if q != p {
      LookupSame(t.lower, p, q);
    }
    if q.Child? && !Below(q.parent, p) {
      SameButBelow(t, w, p, q.parent);
    }
  }

  lemma {:induction false} LookupSame(l: Tree, p: Path, q: Path)
    requires !Within(q, p)
    ensures ThroughLink(l - {p}, q) == ThroughLink(l, q) && Blocked(l - {p}, q) == Blocked(l, q)
    ensures Get(l - {p}, q) == Get(l, q)
  {
    if q.Child? {
      LookupSame(l, p, q.parent);
    }
  }

  /** Below the new directory a path is found exactly behind the link. */
  lemma ChildBeyond(t: S.State, c: Path)
    requires c.Child? && c.parent in t.lower && t.lower[c.parent].Link? && c !in t.upper
    ensures S.Resolved(t, c).Some? <==> c !in t.gone && c in t.links.beyond && t.links.beyond[c].Ok?
  {
  }

  lemma {:induction false} NothingVisibleBelow(t: S.State, p: Path, q: Path)
    requires p in t.lower && t.lower[p].Link? && Below(q, p)
    requires forall c: Path :: c.Child? && c.parent == p ==> c !in t.upper
    requires NothingBeyond(t, p)
    ensures !S.Visible(t, q)
    decreases q
  {
    if q.parent == p {
      ChildBeyond(t, q);
    } else {
      NothingVisibleBelow(t, p, q.parent);
    }
  }

  lemma ViewsAgreeOutside(t: S.State, w: S.State, p: Path)
    requires p.Child? && p in t.lower && p in t.upper && p !in t.gone && w == Unlinked(t, p)
    requires WellFormed(t.lower) && t.lower[p].Link?
    ensures forall q :: !Below(q, p) ==> Get(S.View(t), q) == Get(S.View(w), q)
  {
    forall q | !Below(q, p) ensures Get(S.View(t), q) == Get(S.View(w), q) {
      SameButBelow(t, w, p, q);
      S.VisibleIsViewed(t, q);
      S.VisibleIsViewed(w, q);
    }
  }

  /** The new directory is visible; what shows inside is what lies behind the link. */
  lemma BeyondShows(t: S.State, w: S.State, p: Path)
    requires p.Child? && p in t.lower && p in t.upper && t.upper[p].Dir? && p !in t.gone && w == Unlinked(t, p)
    requires WellFormed(t.lower) && t.lower[p].Link?
    requires forall c: Path :: c.Child? && c.parent == p ==> c !in t.upper
    requires p in S.View(w) && EmptyBelow(S.View(w), p)
    ensures S.View(t) == S.View(w) <==> NothingBeyond(t, p)
    ensures EmptyBelow(S.View(t), p) <==> NothingBeyond(t, p)
  {
    ViewsAgreeOutside(t, w, p);
    BelowIsNotSelf(p);
    if NothingBeyond(t, p) {
      forall q | Below(q, p) ensures q !in S.View(t) && q !in S.View(w) {
        NothingVisibleBelow(t, p, q);
        S.VisibleIsViewed(t, q);
      }
      TreesEqual(S.View(t), S.View(w));
    } else {
      var c: Path :| c.Child? && c.parent == p && c !in t.gone && c in t.links.beyond && t.links.beyond[c].Ok?;
      ChildBeyond(t, c);
      S.VisibleIsViewed(t, p);
      S.VisibleIsViewed(t, c);
      assert Below(c, p);
    }
  }

  lemma BelowIsNotSelf(p: Path)
    ensures !Below(p, p)
  {
    if Below(p, p) {
      BelowIsStrict(p, p);
    }
  }

  /** A directory made over a link of the snapshot always appears. It shows as the plain tree's would, and is
      empty, exactly if nothing lies behind the link. */
  lemma MadeOverLink(s: S.State, op: Op)
    requires S.Inv(s) && Allowed(S.View(s), op) && MakesOverLink(s, op)
    ensures S.Apply(s, op).Ok?
    ensures var t := S.Apply(s, op).value;
            && (ShowsLikePlain(s, op, t) <==> NothingBeyond(s, op.path))
            && (EmptyBelow(S.View(t), op.path) <==> NothingBeyond(s, op.path))
  {
    var p := op.path;
    var w := Unlinked(s, p);
    UnlinkedShows(s, op);
    NewNodeApplied(s, op);
    NewNodeApplied(w, op);
    NewNodeRefines(w, op);
    MadeDirectoryIsEmpty(w, p, op.perm);
    RoomForNode(s, op);
    RoomBelow(s, op);
    BeyondShows(Placed(s, op), Placed(w, op), p);
  }

  /** Making the directories above leaves room below as well. */
  lemma RoomBelow(s: S.State, op: Op)
    requires S.Inv(s) && op.Mkdir? && op.path.Child? && op.path !in s.upper && CreateDirAll(s.upper, op.path.parent).Ok?
    ensures forall c: Path :: c.Child? && c.parent == op.path ==> c !in Placed(s, op).upper
  {
    var u := CreateDirAll(s.upper, op.path.parent).value;
    CreateDirAllEffect(s.upper, op.path.parent);
    forall c: Path | c.Child? && c.parent == op.path ensures c !in u {
      assert Below(c, op.path) && Below(c, op.path.parent);
      BelowIsStrict(c, op.path);
      BelowIsStrict(c, op.path.parent);
      assert Get(u, c) == None;
    }
  }

  // ----- rename onto a link of the upper layer

  /** A rename that writes through a link reports success, and the link is still there. What it leads to inside the
      upper layer takes over the file; if it leads outside, the layer is as it was. */
  lemma WrittenThroughLink(s: S.State, op: Op)
    requires S.Inv(s) && Allowed(S.View(s), op) && RenamesOntoLink(s, op) && S.Apply(s, op).Ok?
    ensures var t := S.Apply(s, op).value; op.to in t.upper && t.upper[op.to] == s.upper[op.to] && op.path in t.gone
    ensures match s.links.landing(s.upper, op.to)
            case Refused => false
            case Outside => S.Apply(s, op).value.upper == s.upper
            case Inside(q) =>
              && q in s.upper && s.upper[q].File?
              && forall x :: Get(S.Apply(s, op).value.upper, x)
                             == if x == q then Get(S.View(s), op.path) else Get(s.upper, x)
  {
    ViewAt(s, op.path);
    S.ViewedStraight(s, op.path);
    assert CreateDirAll(s.upper, op.to.parent) == Ok(s.upper);
  }

  /** The plain tree would have the file in place of the link. */
  lemma RenamedOntoLink(s: S.State, op: Op)
    requires S.Inv(s) && Allowed(S.View(s), op) && RenamesOntoLink(s, op) && S.Apply(s, op).Ok?
    ensures !ShowsLikePlain(s, op, S.Apply(s, op).value)
  {
    ApplyRefines(s, op);
    WrittenThroughLink(s, op);
    DefaultedIsSame(S.View(s), CopiedDirs(s, op), op);
    LinkStays(S.Apply(s, op).value, op, Defaulted(S.View(s), CopiedDirs(s, op)));
  }

  lemma LinkStays(t: S.State, op: Op, v: Tree)
    requires op.Rename? && Allowed(v, op) && v[op.path].File? && op.to in t.upper && t.upper[op.to].Link?
    ensures Step(v, op) != Ok(S.View(t))
  {
    S.VisibleIsViewed(t, op.to);
    assert Get(Step(v, op).value, op.to) == Some(v[op.path]);
  }

  /** The exact condition, for whatever lies behind the links: a successful operation shows as on a plain tree
      unless it makes a directory over a link that leads to something, or renames a file onto a link. */
  lemma LikePlainExactly(s: S.State, op: Op)
    requires S.Inv(s) && Allowed(S.View(s), op) && Reachable(s, op) && S.Apply(s, op).Ok?
    ensures ShowsLikePlain(s, op, S.Apply(s, op).value) <==>
            !RenamesOntoLink(s, op) && (MakesOverLink(s, op) ==> NothingBeyond(s, op.path))
  {
    if MakesOverLink(s, op) {
      MadeOverLink(s, op);
    } else if RenamesOntoLink(s, op) {
      RenamedOntoLink(s, op);
    } else {
      ApplyRefines(s, op);
    }
  }

  // ----- runs that meet a link

  /** In any snapshot: a link is replaced by a directory, and the directory shows what the link led to. */
  lemma LinkTurnedDirectory(lower: Tree, links: S.Links, a: Path, name: Name) returns (t: S.State)
    requires WellFormed(lower) && a in lower && lower[a].Link?
    requires Child(a, name) in links.beyond && links.beyond[Child(a, name)].Ok?
    ensures Run(FreshEnv(lower, links, DEFAULT_DIR_MODE), [Unlink(a), Mkdir(a, 0)], t)
    ensures Child(a, name) in S.View(t) && PlainRun(lower, [Unlink(a), Mkdir(a, 0)]) == Some((lower - {a})[a := Dir(0)])
  {
    var s0 := FreshEnv(lower, links, DEFAULT_DIR_MODE);
    FreshEnvShowsLower(lower, links, DEFAULT_DIR_MODE);
    var s1 := LinkRemoved(s0, a);
    ShowsBeyond(s1, Mkdir(a, 0), Child(a, name));
    t := S.Apply(s1, Mkdir(a, 0)).value;
    RunOfTwo(s0, Unlink(a), s1, Mkdir(a, 0), t);
    PlainRunOfTwo(lower, Unlink(a), Mkdir(a, 0));
  }

  lemma LinkRemoved(s: S.State, a: Path) returns (t: S.State)
    requires S.Inv(s) && a in s.lower && s.lower[a].Link? && a !in s.upper && s.gone == {}
    ensures Allowed(S.View(s), Unlink(a)) && S.Apply(s, Unlink(a)) == Ok(t)
    ensures S.Inv(t) && t.gone == {a} && t.lower == s.lower && t.links == s.links && Root in t.upper
    ensures Allowed(S.View(t), Mkdir(a, 0))
  {
    ViewAt(s, a);
    BlockedMeans(s.lower, a);
    S.ViewIsShow(s);
    S.ViewedStraight(s, a);
    ApplyRefines(s, Unlink(a));
    t := S.Apply(s, Unlink(a)).value;
  }

  lemma ShowsBeyond(s: S.State, op: Op, c: Path)
    requires S.Inv(s) && Allowed(S.View(s), op) && MakesOverLink(s, op) && c.Child? && c.parent == op.path
    requires c !in s.gone && c in s.links.beyond && s.links.beyond[c].Ok?
    ensures S.Apply(s, op).Ok? && c in S.View(S.Apply(s, op).value)
  {
    var p := op.path;
    var w := Unlinked(s, p);
    UnlinkedShows(s, op);
    NewNodeApplied(s, op);
    NewNodeApplied(w, op);
    NewNodeRefines(w, op);
    RoomForNode(s, op);
    RoomBelow(s, op);
    var t := Placed(s, op);
    ViewsAgreeOutside(t, Placed(w, op), p);
    BelowIsNotSelf(p);
    ChildBeyond(t, c);
    S.VisibleIsViewed(t, p);
    S.VisibleIsViewed(t, c);
  }

  lemma PlainRunOfTwo(v: Tree, a: Op, b: Op)
    requires Allowed(v, a) && Step(v, a).Ok? && Allowed(Step(v, a).value, b) && Step(Step(v, a).value, b).Ok?
    ensures PlainRun(v, [a, b]) == Some(Step(Step(v, a).value, b).value)
  {
    assert [a, b][1..] == [b] && [b][1..] == [];
    assert PlainRun(Step(v, a).value, [b]) == PlainRun(Step(Step(v, a).value, b).value, []);
  }

  /** In any snapshot: a link is made, and a file of the snapshot renamed onto it; the rename succeeds, the file
      is gone, and the link is still there. */
  lemma FileRenamedOntoLink(lower: Tree, links: S.Links, from: Path, to: Path, target: string) returns (t: S.State)
    requires WellFormed(lower) && from in lower && lower[from].File? && to.Child? && to !in lower
             && IsDir(lower, to.parent)
    requires forall u: Tree :: links.landing(u, to) == S.Outside
    ensures Run(FreshEnv(lower, links, DEFAULT_DIR_MODE), [Symlink(to, target), Rename(from, to)], t)
    ensures t.upper.Keys >= {to} && t.upper[to] == Link(target) && from in t.gone
  {
    var s0 := FreshEnv(lower, links, DEFAULT_DIR_MODE);
    var s1 := MadeBeside(lower, links, Symlink(to, target), from);
    var op := Rename(from, to);
    ApplyRefines(s1, op);
    t := S.Apply(s1, op).value;
    WrittenThroughLink(s1, op);
    RunOfTwo(s0, Symlink(to, target), s1, op, t);
  }

  /** The first step of such a run: something is made beside a node of the snapshot. */
  lemma MadeBeside(lower: Tree, links: S.Links, op: Op, from: Path) returns (t: S.State)
    requires WellFormed(lower) && (op.Create? || op.Symlink?) && op.path.Child? && op.path !in lower
             && IsDir(lower, op.path.parent)
    requires from in lower && !lower[from].Dir? && (lower[from].Link? ==> from !in links.dead)
    ensures var s := FreshEnv(lower, links, DEFAULT_DIR_MODE);
            Root in s.upper && Allowed(S.View(s), op) && S.Apply(s, op) == Ok(t)
    ensures S.Inv(t) && Root in t.upper && t.links == links && Get(S.View(t), from) == Some(lower[from])
            && from !in t.upper
    ensures Get(t.upper, op.path) == Some(NewNode(op)) && Allowed(S.View(t), Rename(from, op.path))
    ensures Reachable(t, Rename(from, op.path))
  {
    FreshEnvShowsLower(lower, links, DEFAULT_DIR_MODE);
    t := MadeBesideFrom(FreshEnv(lower, links, DEFAULT_DIR_MODE), op, from, lower);
  }

  lemma MadeBesideFrom(s: S.State, op: Op, from: Path, v: Tree) returns (t: S.State)
    requires S.Inv(s) && (op.Create? || op.Symlink?) && op.path.Child? && op.path !in v && IsDir(v, op.path.parent)
    requires SameButDirModes(v, S.View(s)) && s.upper.Keys == {Root} && from in s.lower
             && Get(v, from) == Some(s.lower[from])
    requires !v[from].Dir? && (v[from].Link? ==> from !in s.links.dead)
    ensures Allowed(S.View(s), op) && S.Apply(s, op) == Ok(t)
    ensures S.Inv(t) && Root in t.upper && t.links == s.links && Get(S.View(t), from) == Some(v[from])
            && from !in t.upper
    ensures Get(t.upper, op.path) == Some(NewNode(op)) && Allowed(S.View(t), Rename(from, op.path))
    ensures Reachable(t, Rename(from, op.path))
  {
    t := RunStep(s, op, v);
    NewNodeApplied(s, op);
    NotCopiedUp(s, op, from);
    assert Get(S.View(t), from) == Some(v[from]);
  }

  /** A creating operation brings only its path and the directories above it to `upper`. */
  lemma NotCopiedUp(s: S.State, op: Op, p: Path)
    requires S.Inv(s) && Allowed(S.View(s), op) && (op.Create? || op.Symlink?)
    requires p !in s.upper && p in s.lower && !s.lower[p].Dir? && p != op.path
    ensures S.Apply(s, op).Ok? && p !in S.Apply(s, op).value.upper
  {
    NewNodeApplied(s, op);
    UpperDirsMade(s, op.path.parent);
    ViewAt(s, p);
  }

  /** In any snapshot: a file is made, and a link of the snapshot renamed onto it; the rename is refused. */
  lemma LinkRenameRefused(lower: Tree, links: S.Links, from: Path, to: Path) returns (t: S.State)
    requires WellFormed(lower) && from in lower && lower[from].Link? && to.Child? && to !in lower
             && IsDir(lower, to.parent)
    requires from !in links.dead
    ensures Run(FreshEnv(lower, links, DEFAULT_DIR_MODE), [Create(to, 0)], t)
    ensures Allowed(S.View(t), Rename(from, to)) && Step(S.View(t), Rename(from, to)).Ok?
    ensures Root in t.upper && S.Apply(t, Rename(from, to)).Err?
  {
    t := MadeBeside(lower, links, Create(to, 0), from);
    assert [Create(to, 0)][1..] == [];
    assert Run(t, [], t);
    ApplyRefines(t, Rename(from, to));
  }
}

/** Symbolic links that lead to nothing: where the env sees something else than the layers hold. */
module DeadLinks {
  import opened Replies
  import opened Trees
  import opened PlainTree
  import opened OverlayRefinement
  import opened OverlayRuns
  import S = OverlayState

  lemma SeenIsAlong(s: S.State, p: Path)
    ensures p in S.Seen(s) <==> S.SeenAlong(s, p)
    ensures p in S.Seen(s) ==> S.Seen(s)[p] == S.Found(s, p).value
  {
  }

  /** Where the parent is a visible directory, the env sees what a lookup of the path finds. */
  lemma SeenAt(s: S.State, p: Path)
    requires S.Inv(s) && (p.Child? ==> IsDir(S.View(s), p.parent))
    ensures Get(S.Seen(s), p) == S.Found(s, p)
    ensures S.Found(s, p).Some? ==> S.Show(s, p).Some?
  {
    S.ViewedStraight(s, p);
    if p.Child? {
      DirIsSeen(s, p.parent);
    }
  }

  /** Directories are no links. */
  lemma {:induction false} DirIsSeen(s: S.State, d: Path)
    requires S.Inv(s) && IsDir(S.View(s), d)
    ensures S.SeenAlong(s, d) && S.Found(s, d) == Some(S.View(s)[d])
  {
    ViewAt(s, d);
    S.VisibleIsViewed(s, d);
    if d.Child? {
      DirIsSeen(s, d.parent);
    }
    S.ViewIsShow(s);
    S.ViewedStraight(s, d);
  }

  /** The link the layers hold at the path is found by a lookup: it leads to something, or the snapshot has the same
      link beneath it, and that one does. */
  predicate LinkFound(s: S.State, p: Path) {
    if S.Exists(s.upper, s.links, p) then true
    else p in s.lower && p !in s.links.dead && (p in s.upper ==> s.lower[p] == s.upper[p])
  }

  /** Every link in sight is found. */
  ghost predicate LinksFound(s: S.State) {
    forall p :: p in S.View(s) && S.View(s)[p].Link? ==> LinkFound(s, p)
  }

  lemma FoundAt(s: S.State, p: Path)
    requires S.Inv(s) && p in S.View(s)
    ensures S.Found(s, p) == Some(S.View(s)[p]) <==> (S.View(s)[p].Link? ==> LinkFound(s, p))
  {
    S.ViewIsShow(s);
    ViewAt(s, p);
    S.ViewedStraight(s, p);
  }

  /** The env sees what the layers hold exactly as long as every link in sight is found. */
  lemma SeenIsView(s: S.State)
    requires S.Inv(s)
    ensures S.Seen(s) == S.View(s) <==> LinksFound(s)
  {
    if LinksFound(s) {
      forall p ensures Get(S.Seen(s), p) == Get(S.View(s), p) {
        SeenSame(s, p);
      }
      TreesEqual(S.Seen(s), S.View(s));
    } else {
      var p :| p in S.View(s) && S.View(s)[p].Link? && !LinkFound(s, p);
      FoundAt(s, p);
      assert p in S.Seen(s) ==> S.Seen(s)[p] == S.Found(s, p).value;
    }
  }

  lemma {:induction false} SeenSame(s: S.State, p: Path)
    requires S.Inv(s) && LinksFound(s)
    ensures Get(S.Seen(s), p) == Get(S.View(s), p)
  {
    S.ViewIsShow(s);
    SeenIsAlong(s, p);
    if p.Child? {
      SeenSame(s, p.parent);
      SeenIsAlong(s, p.parent);
      if IsDir(S.View(s), p.parent) {
        SeenAt(s, p);
        ViewAt(s, p);
        if p in S.View(s) {
          FoundAt(s, p);
        }
      }
    } else {
      DirIsSeen(s, p);
    }
  }

  // ----- runs

  /** Every state on the way, and the last, has all its links found. */
  ghost predicate AllFound(s: S.State, ops: seq<Op>)
    decreases |ops|
  {
    LinksFound(s) &&
      (ops == [] ||
       (Root in s.upper && Allowed(S.View(s), ops[0]) && S.Apply(s, ops[0]).Ok?
        ==> AllFound(S.Apply(s, ops[0]).value, ops[1..])))
  }

  lemma {:induction false} FoundAtTheEnd(s: S.State, ops: seq<Op>, t: S.State)
    requires Run(s, ops, t) && AllFound(s, ops)
    ensures LinksFound(t)
    decreases |ops|
  {
    if ops != [] {
      FoundAtTheEnd(S.Apply(s, ops[0]).value, ops[1..], t);
    }
  }

  /** What the env really sees after a run: what the plain operations give, as long as its links are found. */
  lemma RunIsSeen(lower: Tree, links: S.Links, rootMode: Mode, ops: seq<Op>, t: S.State)
    requires WellFormed(lower) && Run(FreshEnv(lower, links, rootMode), ops, t)
    requires AllDirect(FreshEnv(lower, links, rootMode), ops) && AllFound(FreshEnv(lower, links, rootMode), ops)
    ensures PlainRun(lower, ops).Some? && SameButDirModes(PlainRun(lower, ops).value, S.Seen(t))
  {
    FreshRunRefines(lower, links, rootMode, ops, t);
    FoundAtTheEnd(FreshEnv(lower, links, rootMode), ops, t);
    SeenIsView(t);
  }

  // ----- runs that make a dead link

  /** In any snapshot: a file is deleted and a link made in its place that leads to nothing. The env sees the
      deleted file again. */
  lemma DeletedFileReappears(lower: Tree, links: S.Links, b: Path, target: string) returns (t: S.State)
    requires WellFormed(lower) && b in lower && lower[b].File? && forall u: Tree :: !links.leads(u, b)
    ensures Run(FreshEnv(lower, links, DEFAULT_DIR_MODE), [Unlink(b), Symlink(b, target)], t)
    ensures Get(S.View(t), b) == Some(Link(target)) && Get(S.Seen(t), b) == Some(lower[b])
  {
    var s0 := FreshEnv(lower, links, DEFAULT_DIR_MODE);
    FreshEnvShowsLower(lower, links, DEFAULT_DIR_MODE);
    var s1 := FileRemoved(s0, lower, b);
    t := LinkMadeInstead(s1, lower, b, target);
    RunOfTwo(s0, Unlink(b), s1, Symlink(b, target), t);
    DeadLinkIsPassedOver(s1, t, b, target);
  }

  lemma LinkMadeInstead(s: S.State, lower: Tree, b: Path, target: string) returns (t: S.State)
    requires WellFormed(lower) && b in lower && lower[b].File? && s.lower == lower
    requires S.Inv(s) && SameButDirModes(lower - {b}, S.View(s))
    ensures Allowed(S.View(s), Symlink(b, target)) && S.Apply(s, Symlink(b, target)) == Ok(t)
    ensures S.Inv(t) && t.lower == lower && t.links == s.links
  {
    t := RunStep(s, Symlink(b, target), lower - {b});
  }

  /** In any snapshot: a link that leads to nothing is made at a new path. The request succeeds, and the env does not
      see the link. */
  lemma DeadLinkIsNotSeen(lower: Tree, links: S.Links, a: Path, target: string) returns (t: S.State)
    requires WellFormed(lower) && a.Child? && IsDir(lower, a.parent) && a !in lower
             && forall u: Tree :: !links.leads(u, a)
    ensures Run(FreshEnv(lower, links, DEFAULT_DIR_MODE), [Symlink(a, target)], t)
    ensures Get(S.View(t), a) == Some(Link(target)) && a !in S.Seen(t)
  {
    var s := FreshEnv(lower, links, DEFAULT_DIR_MODE);
    FreshEnvShowsLower(lower, links, DEFAULT_DIR_MODE);
    t := RunStep(s, Symlink(a, target), lower);
    assert [Symlink(a, target)][1..] == [];
    assert Run(t, [], t);
    DeadLinkIsPassedOver(s, t, a, target);
  }

  /** In the place of a dead link the env sees what the snapshot has there. */
  lemma DeadLinkIsPassedOver(s: S.State, t: S.State, a: Path, target: string)
    requires S.Inv(s) && S.Inv(t) && Allowed(S.View(s), Symlink(a, target)) && S.Apply(s, Symlink(a, target)) == Ok(t)
    requires forall u: Tree :: !t.links.leads(u, a)
    requires a in t.lower ==> !t.lower[a].Link?
    ensures Get(S.View(t), a) == Some(Link(target)) && Get(S.Seen(t), a) == Get(t.lower, a)
  {
    ApplyRefines(s, Symlink(a, target));
    NewNodeApplied(s, Symlink(a, target));
    ViewAt(t, a);
    S.ViewIsShow(t);
    assert Get(S.View(t), a) == Some(Link(target));
    SeenAt(t, a);
    S.ViewedStraight(t, a);
  }
}

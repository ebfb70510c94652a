/** Which runs of an env can be written back. */
module CommitRuns {
  import opened Replies
  import opened Trees
  import opened PlainTree
  import opened WhiteoutStore
  import opened OverlayRefinement
  import opened OverlayRuns
  import opened TreeComparison
  import opened PathLookup
  import opened StorageCleanup
  import opened CommitSteps
  import opened CommitSafety
  import opened HostCommit
  import opened CommitThroughLinks
  import S = OverlayState

  /** In every run from a new env without links in the way, only paths of the snapshot are marked as deleted. */
  lemma {:induction false} DeletionsStayInLower(s: S.State, ops: seq<Op>, t: S.State)
    requires S.Inv(s) && Run(s, ops, t) && AllDirect(s, ops) && s.gone <= s.lower.Keys
    ensures t.gone <= t.lower.Keys
    decreases |ops|
  {
    if ops != [] {
      ApplyRefines(s, ops[0]);
      StepStaysInLower(s, ops[0]);
      DeletionsStayInLower(S.Apply(s, ops[0]).value, ops[1..], t);
    }
  }

  lemma StepStaysInLower(s: S.State, op: Op)
    requires S.Inv(s) && Allowed(S.View(s), op) && S.Apply(s, op).Ok? && Direct(s, op) && s.gone <= s.lower.Keys
    ensures S.Apply(s, op).value.gone <= s.lower.Keys
  {
    if op.Unlink? || op.Rmdir? {
      RemovalStaysInLower(s, op);
    } else if op.Rename? {
      RenameStaysInLower(s, op);
    } else if op.Write? || op.SetAttr? {
      WriteStaysInLower(s, op);
    }
  }

  lemma RemovalStaysInLower(s: S.State, op: Op)
    requires S.Inv(s) && Allowed(S.View(s), op) && S.Apply(s, op).Ok? && s.gone <= s.lower.Keys
    requires op.Unlink? || op.Rmdir?
    ensures S.Apply(s, op).value.gone <= s.lower.Keys
  {
    S.ViewIsShow(s);
    S.ViewedStraight(s, op.path);
    RemovalSteps(s, op.path, op.Rmdir?, S.Apply(s, op).value);
  }

  lemma RenameStaysInLower(s: S.State, op: Op)
    requires S.Inv(s) && Allowed(S.View(s), op) && S.Apply(s, op).Ok? && Direct(s, op) && s.gone <= s.lower.Keys
    requires op.Rename?
    ensures S.Apply(s, op).value.gone <= s.lower.Keys
  {
    ViewAt(s, op.path);
    FoundStraight(s, op.path);
    if op.path in s.upper {
      RenameOfUpper(s, op);
    } else {
      RenameOfLower(s, op);
    }
  }

  lemma WriteStaysInLower(s: S.State, op: Op)
    requires S.Inv(s) && Allowed(S.View(s), op) && S.Apply(s, op).Ok? && Direct(s, op) && s.gone <= s.lower.Keys
    requires op.Write? || op.SetAttr?
    ensures S.Apply(s, op).value.gone <= s.lower.Keys
  {
    FileIsReachable(s, op);
    if op.path !in s.upper {
      CopyUpIs(s, op.path);
    }
  }

  /** The only file of a directory is deleted, then the directory, and something else is made in its place. */
  lemma RemadeDirectory(lower: Tree, links: S.Links, d: Path, name: Name, last: Op)
    returns (s1: S.State, s2: S.State, t: S.State)
    requires WellFormed(lower) && IsDir(lower, d) && d.Child? && ChildNames(lower, d) == {name}
    requires lower[Child(d, name)].File? && (last.Create? || last.Symlink?) && last.path == d
    ensures Run(FreshEnv(lower, links, DEFAULT_DIR_MODE), [Unlink(Child(d, name)), Rmdir(d), last], t)
    ensures Replaced(FreshEnv(lower, links, DEFAULT_DIR_MODE), s1, s2, t, d, Child(d, name), last)
  {
    FreshEnvShowsLower(lower, links, DEFAULT_DIR_MODE);
    s1, s2, t := RemadeFrom(FreshEnv(lower, links, DEFAULT_DIR_MODE), lower, d, name, last);
  }

  lemma RemadeFrom(s0: S.State, lower: Tree, d: Path, name: Name, last: Op)
    returns (s1: S.State, s2: S.State, t: S.State)
    requires WellFormed(lower) && IsDir(lower, d) && d.Child? && ChildNames(lower, d) == {name}
    requires lower[Child(d, name)].File? && (last.Create? || last.Symlink?) && last.path == d
    requires S.Inv(s0) && s0.lower == lower && SameButDirModes(lower, S.View(s0)) && Root in s0.upper
    ensures Run(s0, [Unlink(Child(d, name)), Rmdir(d), last], t) && Replaced(s0, s1, s2, t, d, Child(d, name), last)
  {
    s1, s2 := EmptyAndRemove(s0, lower, d, name);
    t := RemakeAt(s2, last, lower - {Child(d, name)} - {d});
    RunOfThree(s0, Unlink(Child(d, name)), s1, Rmdir(d), s2, last, t);
  }

  lemma RemakeAt(s: S.State, last: Op, v: Tree) returns (t: S.State)
    requires S.Inv(s) && SameButDirModes(v, S.View(s)) && (last.Create? || last.Symlink?)
    requires last.path.Child? && last.path !in v && IsDir(v, last.path.parent)
    ensures Allowed(S.View(s), last) && S.Apply(s, last) == Ok(t) && S.Inv(t) && t.lower == s.lower
  {
    t := RunStep(s, last, v);
  }

  /** The three steps of that run */
  ghost predicate Replaced(s0: S.State, s1: S.State, s2: S.State, t: S.State, d: Path, x: Path, last: Op) {
    && S.Inv(s0) && S.Inv(s1) && S.Inv(s2) && S.Inv(t) && Root in s0.upper && Root in s1.upper && Root in s2.upper
    && s1.lower == s0.lower && s2.lower == s0.lower && t.lower == s0.lower
    && Allowed(S.View(s0), Unlink(x)) && S.Apply(s0, Unlink(x)) == Ok(s1)
    && Allowed(S.View(s1), Rmdir(d)) && S.Apply(s1, Rmdir(d)) == Ok(s2)
    && Allowed(S.View(s2), last) && S.Apply(s2, last) == Ok(t)
  }

  /** A run after which the host cannot be brought up to date, in any snapshot: the only file of a directory is
      deleted, then the directory, and a file is made in its place. The file's deletion is still marked below
      it, and the commit stumbles over it, with or without force. */
  lemma FileOverDirectoryBlocksCommit(lower: Tree, links: S.Links, d: Path, name: Name, source: Path)
    returns (t: S.State)
    requires WellFormed(lower) && IsDir(lower, d) && ChildNames(lower, d) == {name} && Below(d, source)
    requires lower[Child(d, name)].File?
    ensures Run(FreshEnv(lower, links, DEFAULT_DIR_MODE), [Unlink(Child(d, name)), Rmdir(d), Create(d, 0)], t)
    ensures StaleWhiteout(t, source)
  {
    var s1, s2;
    s1, s2, t := RemadeDirectory(lower, links, d, name, Create(d, 0));
    StillMarked(FreshEnv(lower, links, DEFAULT_DIR_MODE), s1, s2, t, d, Child(d, name));
    WithinTransitive(d, d.parent, source);
    assert Below(Child(d, name), source) && Below(Child(d, name), d);
  }

  /** The first two steps of that run */
  lemma EmptyAndRemove(s0: S.State, lower: Tree, d: Path, name: Name) returns (s1: S.State, s2: S.State)
    requires WellFormed(lower) && IsDir(lower, d) && d != Root && ChildNames(lower, d) == {name}
             && lower[Child(d, name)].File?
    requires S.Inv(s0) && s0.lower == lower && SameButDirModes(lower, S.View(s0)) && Root in s0.upper
    ensures Allowed(S.View(s0), Unlink(Child(d, name))) && S.Apply(s0, Unlink(Child(d, name))) == Ok(s1)
    ensures S.Inv(s1) && Allowed(S.View(s1), Rmdir(d)) && S.Apply(s1, Rmdir(d)) == Ok(s2) && s1.lower == lower
    ensures S.Inv(s2) && Root in s1.upper && Root in s2.upper && s2.lower == lower
    ensures SameButDirModes(lower - {Child(d, name)} - {d}, S.View(s2))
  {
    ChildNamesAreChildren(lower, d);
    s1 := FileRemoved(s0, lower, Child(d, name));
    s2 := EmptyDirRemoved(s1, lower, d, Child(d, name));
  }

  lemma EmptyDirRemoved(s: S.State, lower: Tree, d: Path, x: Path) returns (t: S.State)
    requires WellFormed(lower) && IsDir(lower, d) && d != Root && x.Child? && x.parent == d && s.lower == lower
    requires forall n :: Child(d, n) in lower ==> Child(d, n) == x
    requires S.Inv(s) && SameButDirModes(lower - {x}, S.View(s)) && Root in s.upper
    ensures Allowed(S.View(s), Rmdir(d)) && S.Apply(s, Rmdir(d)) == Ok(t)
    ensures S.Inv(t) && t.lower == lower && Root in t.upper && SameButDirModes(lower - {x} - {d}, S.View(t))
  {
    BelowIsStrict(x, d);
    BlockedMeans(lower, d);
    ChildNamesAreChildren(S.View(s), d);
    ChildNamesAreChildren(lower - {x}, d);
    t := RunStep(s, Rmdir(d), lower - {x});
  }

  lemma StillMarked(s0: S.State, s1: S.State, s2: S.State, t: S.State, d: Path, x: Path)
    requires Replaced(s0, s1, s2, t, d, x, Create(d, 0)) && x.Child? && x.parent == d && x in s0.lower
    ensures x in t.gone && d in t.upper && !t.upper[d].Dir?
  {
    BelowIsStrict(x, d);
    RemovalMarks(s0, x, false, s1);
    RemovalKeepsMarks(s1, d, true, s2, x);
  }

  lemma RemovalMarks(s: S.State, p: Path, directory: bool, t: S.State)
    requires S.Inv(s) && p in s.lower && S.RemoveNode(s, p, directory) == Ok(t)
    ensures p in t.gone
  {
    ExistsStraight(s.lower, p);
  }

  lemma RemovalKeepsMarks(s: S.State, p: Path, directory: bool, t: S.State, x: Path)
    requires S.RemoveNode(s, p, directory) == Ok(t) && x in s.gone && x != p
    ensures x in t.gone
  {
  }

  /** A run after which a commit changes what the env sees, in any snapshot: the first file made in a source
      directory of another than the default mode. The mode seen is the default one until clearing the layer
      drops the copied directory. */
  lemma FirstFileChangesSourceMode(lower: Tree, links: S.Links, rootMode: Mode, source: Path, name: Name)
    returns (t: S.State)
    requires WellFormed(lower) && source.Child? && IsDir(lower, source) && lower[source].mode != DEFAULT_DIR_MODE
    requires Child(source, name) !in lower
    ensures Run(FreshEnv(lower, links, rootMode), [Create(Child(source, name), 0)], t)
    ensures !HollowsMatch(t, source)
  {
    var x := Child(source, name);
    var s := FreshEnv(lower, links, rootMode);
    FreshEnvShowsLower(lower, links, rootMode);
    t := RunStep(s, Create(x, 0), S.View(s));
    assert [Create(x, 0)][1..] == [];
    assert Run(t, [], t);
    CreateDirAllEffect(s.upper, source);
    var u := CreateDirAll(s.upper, source).value;
    BelowIsStrict(x, source);
    forall q | q in t.upper && !t.upper[q].Dir? ensures Below(q, source) {
      assert Get(u, q) == Get(t.upper, q) || q == x;
    }
    assert Get(u, source) == Some(Dir(DEFAULT_DIR_MODE));
    if Below(source, source) {
      BelowIsStrict(source, source);
    }
    assert Hollow(t.upper, source, source);
  }

  /** A deleted path lies below a path the env has meanwhile made a link of. */
  ghost predicate DeletedBelowLink(s: S.State, source: Path) {
    exists w, a :: w in s.gone && Below(w, source) && Below(w, a) && a in s.upper && s.upper[a].Link?
  }

  /** On a host that its snapshot still matches, only a link the env made can be in the way of a commit. */
  lemma MatchingHostIsStraight(h: Tree, s: S.State, source: Path)
    requires WellFormed(h) && S.Inv(s) && s.gone <= s.lower.Keys
    requires IsDir(h, source) && AgreeBelow(h, s.lower, source)
    ensures Straight(h, s, source) <==> !DeletedBelowLink(s, source)
  {
    forall a | Within(source, a) ensures NoLinkAt(h, a) {
      AncestorsAreDirs(h, source, a);
    }
    forall w, a | w in s.gone && Below(w, source) && Below(w, a) ensures NoLinkAt(h, a) && NoLinkAt(s.lower, a) {
      AncestorsAreDirs(s.lower, w, a);
      BelowIsStrict(w, a);
      assert Get(h, w) == Get(s.lower, w);
      AncestorsAreDirs(h, w, a);
    }
  }

  lemma RunMatchesHost(h: Tree, snapshot: Tree, links: S.Links, rootMode: Mode, ops: seq<Op>, t: S.State, source: Path)
    requires WellFormed(snapshot) && Run(FreshEnv(snapshot, links, rootMode), ops, t)
    requires AllDirect(FreshEnv(snapshot, links, rootMode), ops) && !DeletedBelowLink(t, source)
    requires WellFormed(h) && IsDir(h, source) && AgreeBelow(h, snapshot, source)
    ensures Straight(h, t, source) && Agreed(h, t, source) && DeletionsInLower(t, source)
    ensures PlainRun(snapshot, ops).Some? && SameButDirModes(PlainRun(snapshot, ops).value, S.View(t))
    ensures forall q :: Below(q, source) ==> SameSubtree(t.lower, h, q)
  {
    FreshEnvShowsLower(snapshot, links, rootMode);
    FreshRunRefines(snapshot, links, rootMode, ops, t);
    DeletionsStayInLower(FreshEnv(snapshot, links, rootMode), ops, t);
    MatchingHostIsStraight(h, t, source);
    AgreementIsSameSubtree(h, t.lower, source);
  }

  /** End to end: an env made from a host that it still matches, any run without links in its way, and the commit,
      no deletion lying below a link the env made. There is no conflict; the commit goes through exactly if no
      deletion lies below a file the env made, and then the host is, below the source, what the same operations
      would have made of it directly, directory modes aside. */
  method RunThenCommit(c: EnvCommit, source: Path, ghost snapshot: Tree, ghost rootMode: Mode, ghost ops: seq<Op>)
    returns (r: Reply<()>)
    requires c.Valid(source) && WellFormed(snapshot)
    requires Run(FreshEnv(snapshot, c.links, rootMode), ops, c.Layers())
    requires AllDirect(FreshEnv(snapshot, c.links, rootMode), ops) && !DeletedBelowLink(c.Layers(), source)
    requires IsDir(c.host, source) && AgreeBelow(c.host, snapshot, source)
    modifies c
    ensures r.Ok? <==> !StaleWhiteout(old(c.Layers()), source)
    ensures r.Err? ==> r == Err(NotADirectory)
    ensures PlainRun(snapshot, ops).Some?
    ensures r.Ok? ==> forall q :: Below(q, source) ==> SameNodeButDirMode(Get(c.host, q),
                                                                          Get(PlainRun(snapshot, ops).value, q))
  {
    ghost var t := c.Layers();
    RunMatchesHost(c.host, snapshot, c.links, rootMode, ops, t, source);
    ghost var h0, us, ws := c.host, [], [];
    r, us, ws := c.ApplyPathPreservingOverlay(source, false);
    DeliveredAsPlain(r, c.host, c.Layers(), c.history, source, h0, t, PlainRun(snapshot, ops).value);
  }

  lemma DeliveredAsPlain(r: Reply<()>, h: Tree, s: S.State, ms: seq<Moment>, source: Path, h0: Tree, t: S.State,
                         v: Tree)
    requires Delivered(r, h, s, ms, source, false, h0, t)
    requires IsDir(h0, source) && DeletionsInLower(t, source) && Agreed(h0, t, source)
    requires forall q :: Below(q, source) ==> SameSubtree(t.lower, h0, q)
    requires SameButDirModes(v, S.View(t))
    ensures r.Ok? <==> !StaleWhiteout(t, source)
    ensures r.Ok? ==> forall q :: Below(q, source) ==> SameNodeButDirMode(Get(h, q), Get(v, q))
  {
    if r.Ok? {
      forall q | Below(q, source) ensures SameNodeButDirMode(Get(h, q), Get(v, q)) {
        assert Get(h, q) == Get(S.View(t), q);
      }
    }
  }

  // ----- a directory replaced by a link

  /** In any snapshot: the only file of a directory is deleted, then the directory, and a link is made in its place.
      The file's deletion is still marked below the link. */
  lemma LinkOverDirectory(lower: Tree, links: S.Links, d: Path, name: Name, target: string) returns (t: S.State)
    requires WellFormed(lower) && IsDir(lower, d) && d.Child? && ChildNames(lower, d) == {name}
    requires lower[Child(d, name)].File?
    ensures Run(FreshEnv(lower, links, DEFAULT_DIR_MODE), [Unlink(Child(d, name)), Rmdir(d), Symlink(d, target)], t)
    ensures LinkReplaces(t, lower, d, name, target) && DeletedBelowLink(t, d.parent)
  {
    var s1, s2;
    s1, s2, t := RemadeDirectory(lower, links, d, name, Symlink(d, target));
    OnlyTheLink(FreshEnv(lower, links, DEFAULT_DIR_MODE), s1, s2, t, d, Child(d, name), target);
    assert Below(Child(d, name), d.parent) && Below(Child(d, name), d);
  }

  /** Where that run leads: beside the directory `d` the env holds nothing in the same directory. */
  ghost predicate LinkReplaces(t: S.State, lower: Tree, d: Path, name: Name, target: string) {
    && S.Inv(t) && t.lower == lower && t.gone == {Child(d, name)} && d.Child?
    && Get(t.upper, d) == Some(Link(target)) && forall q :: q in t.upper && Below(q, d.parent) ==> q == d
  }

  lemma OnlyTheLink(s0: S.State, s1: S.State, s2: S.State, t: S.State, d: Path, x: Path, target: string)
    requires Replaced(s0, s1, s2, t, d, x, Symlink(d, target)) && x.Child? && x.parent == d && x in s0.lower
             && d in s0.lower
    requires d.Child? && s0.gone == {} && s0.upper.Keys == {Root}
    ensures t.gone == {x} && Get(t.upper, d) == Some(Link(target))
    ensures forall q :: q in t.upper && Below(q, d.parent) ==> q == d
  {
    BelowIsStrict(x, d);
    RemovalSteps(s0, x, false, s1);
    RemovedIsMarked(s0, x, false, s1);
    RemovalSteps(s1, d, true, s2);
    RemovedIsMarked(s1, d, true, s2);
    LinkMade(s2, t, d, target);
    MadeAbove(s2.upper, t.upper, d, target);
    assert {x} + {d} - {d} == {x};
  }

  /** Both removing operations end in the same routine. */
  lemma RemovalSteps(s: S.State, p: Path, directory: bool, t: S.State)
    requires Root in s.upper && Allowed(S.View(s), if directory then Rmdir(p) else Unlink(p))
    requires S.Apply(s, if directory then Rmdir(p) else Unlink(p)) == Ok(t)
    ensures S.RemoveNode(s, p, directory) == Ok(t) && t.lower == s.lower
  {
  }

  lemma LinkMade(s: S.State, t: S.State, d: Path, target: string)
    requires S.Inv(s) && Allowed(S.View(s), Symlink(d, target)) && S.Apply(s, Symlink(d, target)) == Ok(t)
    ensures d.Child? && CreateDirAll(s.upper, d.parent).Ok?
    ensures t.upper == CreateDirAll(s.upper, d.parent).value[d := Link(target)] && t.gone == s.gone - {d}
  {
  }

  /** Removing what only the snapshot has marks it and leaves the upper layer alone. */
  lemma RemovedIsMarked(s: S.State, p: Path, directory: bool, t: S.State)
    requires S.Inv(s) && p in s.lower && p !in s.upper
    requires S.RemoveNode(s, p, directory) == Ok(t)
    ensures t.gone == s.gone + {p} && t.upper == s.upper
  {
    ExistsStraight(s.lower, p);
    assert s.upper - {p} == s.upper;
  }

  lemma MadeAbove(u: Tree, v: Tree, d: Path, target: string)
    requires WellFormed(u) && u.Keys == {Root} && d.Child? && CreateDirAll(u, d.parent).Ok?
    requires v == CreateDirAll(u, d.parent).value[d := Link(target)]
    ensures forall q :: q in v && Below(q, d.parent) ==> q == d
  {
    CreateDirAllEffect(u, d.parent);
    var made := CreateDirAll(u, d.parent).value;
    forall q | q in v && Below(q, d.parent) ensures q == d {
      assert q == d || Get(made, q).Some?;
      if q != d {
        BelowIsStrict(q, d.parent);
      }
    }
  }

  lemma OneEntry(u: Tree, source: Path, us: seq<Path>, d: Path)
    requires UpperOrder(u, source, us) && d in u && Below(d, source)
    requires forall q :: q in u && Below(q, source) ==> q == d
    ensures us == [d]
  {
    assert d in EntriesUnder(u, source);
    assert d in us;
    forall v | v in us ensures v == d {
      assert v in EntriesUnder(u, source);
    }
    OneOrTwo(us, d);
  }

  lemma OneOrTwo(us: seq<Path>, d: Path)
    requires d in us && forall v :: v in us ==> v == d
    ensures us == [d] || !NoDuplicates(us)
  {
    assert us[0] in us;
    if |us| > 1 {
      assert us[1] in us;
    }
  }

  /** The link takes the directory's place on the host and in the snapshot. */
  lemma LinkIsApplied(h: Tree, s: S.State, f: Follow, d: Path, target: string)
    requires WellFormed(h) && WellFormed(s.lower) && d.Child? && Get(s.upper, d) == Some(Link(target))
    requires IsDir(h, d.parent) && IsDir(s.lower, d.parent) && SameSubtree(s.lower, h, d)
    ensures var o := ApplyOne(h, s, f, d, false);
            && o.r.Ok? && o.s.gone == s.gone
            && LinkPutAt(h, o.host, d, target) && LinkPutAt(s.lower, o.s.lower, d, target)
  {
    DirAbove(h, d);
    DirAbove(s.lower, d);
    var k := Disk(h, s.lower);
    RealIsSelf(k, f, OnHost, d);
    RealIsSelf(k, f, InSnapshot, d);
    CheckedHereMeans(s.lower, h, d, false);
    LinkPut(h, d, target);
    LinkPut(s.lower, d, target);
    RealIsSelf(Disk(ApplyUpperPath(Link(target), h, d).value, s.lower), f, InSnapshot, d);
  }

  /** A link at `d`, nothing below it, and all else as it was */
  ghost predicate LinkPutAt(t: Tree, u: Tree, d: Path, target: string) {
    forall q :: Get(u, q) == if q == d then Some(Link(target)) else if Within(q, d) then None else Get(t, q)
  }

  lemma DirAbove(t: Tree, d: Path)
    requires WellFormed(t) && d.Child? && IsDir(t, d.parent)
    ensures NoLinkAbove(t, d) && !Blocked(t, d)
  {
    forall a | Below(d, a) && a in t ensures !t[a].Link? {
      AncestorsAreDirs(t, d.parent, a);
    }
  }

  lemma LinkPut(t: Tree, d: Path, target: string)
    requires WellFormed(t) && d.Child? && IsDir(t, d.parent) && !Blocked(t, d)
    ensures ApplyUpperPath(Link(target), t, d).Ok?
    ensures LinkPutAt(t, ApplyUpperPath(Link(target), t, d).value, d, target)
  {
    ApplyUpperPathEffect(Link(target), t, d);
    var u := ApplyUpperPath(Link(target), t, d).value;
    forall q | !Within(q, d) && q !in t ensures q !in u {
      if q in u {
        AncestorsAreDirs(t, d.parent, q);
      }
    }
  }

  /** Then an unforced commit to a host that still matches goes through, and takes away a file the env still sees:
      one of the same name and content in the directory the new link leads to, on the host and in the snapshot. */
  lemma MadeLinkLosesFile(r: Reply<()>, h: Tree, l: Tree, h0: Tree, t: S.State, f: Follow, u: Tree, w: Tree,
                          us: seq<Path>, ws: seq<Path>, d: Path, e: Path, name: Name, target: string)
    requires WellFormed(h0) && StoreOk(w) && WhiteoutSet(w) == t.gone && LinkReplaces(t, t.lower, d, name, target)
    requires e.Child? && e != d && e.parent == d.parent
    requires IsDir(h0, d.parent) && IsDir(t.lower, d.parent) && AgreeBelow(h0, t.lower, d.parent)
    requires Child(e, name) in t.lower && t.lower[Child(e, name)].File?
    requires forall k: Disk, side: Side :: f(k, Place(side, d)) == Place(side, e)
    requires WrittenBack(r, h, l, h0, t, f, u, w, d.parent, false, us, ws)
    ensures r == Ok(()) && Child(e, name) in h0 && Child(e, name) !in h
    ensures Child(e, name) in S.View(t)
  {
    var y := Child(e, name);
    OtherFileShows(t, d, e, name, target);
    assert Get(h0, y) == Get(t.lower, y);
    AgreementIsSameSubtree(h0, t.lower, d.parent);
    assert Below(d, d.parent) && Below(Child(d, name), d.parent);
    OneEntry(t.upper, d.parent, us, d);
    OnlyTheLinkApplied(h0, t, f, d, target);
    var one := ApplyOne(h0, t, f, d, false);
    LostThroughLink(DeleteEach(one.host, one.s.(upper := u), f, w, d.parent, ws, false), one.host, one.s.(upper := u),
                    f, w, ws, d, e, name, InSnapshot);
  }

  /** The same with an absolute link, which leads to the host from the snapshot as well: the check compares what is
      on the host with itself. Whatever the user has made of it, the commit takes it away. */
  lemma AbsoluteLinkLosesEdit(r: Reply<()>, h: Tree, l: Tree, h0: Tree, t: S.State, f: Follow, u: Tree, w: Tree,
                              us: seq<Path>, ws: seq<Path>, d: Path, e: Path, name: Name, target: string)
    requires WellFormed(h0) && StoreOk(w) && WhiteoutSet(w) == t.gone && LinkReplaces(t, t.lower, d, name, target)
    requires IsDir(h0, d.parent) && IsDir(t.lower, d.parent) && SameSubtree(t.lower, h0, d)
    requires Child(e, name) in h0 && !Within(Child(e, name), d) && Below(Child(e, name), d.parent)
    requires forall k: Disk, side: Side :: f(k, Place(side, d)) == Place(OnHost, e)
    requires WrittenBack(r, h, l, h0, t, f, u, w, d.parent, false, us, ws)
    ensures r == Ok(()) && Child(e, name) !in h
    ensures Get(h0, Child(e, name)) != Get(t.lower, Child(e, name)) ==> !HostEditsKept(h0, t.lower, h, d.parent)
  {
    assert Below(d, d.parent) && Below(Child(d, name), d.parent);
    OneEntry(t.upper, d.parent, us, d);
    OnlyTheLinkApplied(h0, t, f, d, target);
    var one := ApplyOne(h0, t, f, d, false);
    assert Get(one.host, Child(e, name)) == Get(h0, Child(e, name));
    LostThroughLink(DeleteEach(one.host, one.s.(upper := u), f, w, d.parent, ws, false), one.host, one.s.(upper := u),
                    f, w, ws, d, e, name, OnHost);
    assert Get(h, Child(e, name)) == None;
  }

  lemma OtherFileShows(t: S.State, d: Path, e: Path, name: Name, target: string)
    requires LinkReplaces(t, t.lower, d, name, target) && e.Child? && e != d && e.parent == d.parent
    requires Child(e, name) in t.lower
    ensures Child(e, name) in S.View(t) && !Within(Child(e, name), d) && Below(Child(e, name), d.parent)
  {
    var y := Child(e, name);
    S.ViewIsShow(t);
    assert Get(S.View(t), y) == S.Show(t, y);
    if Within(y, d) {
      WithinDepth(e, d);
    }
  }

  lemma OnlyTheLinkApplied(h: Tree, s: S.State, f: Follow, d: Path, target: string)
    requires WellFormed(h) && WellFormed(s.lower) && d.Child? && Get(s.upper, d) == Some(Link(target))
    requires IsDir(h, d.parent) && IsDir(s.lower, d.parent) && SameSubtree(s.lower, h, d)
    ensures var o := ApplyOne(h, s, f, d, false);
            && ApplyEach(h, s, f, [d], false).r.Ok? && o.s.gone == s.gone
            && ApplyEach(h, s, f, [d], false).host == o.host && ApplyEach(h, s, f, [d], false).s == o.s
            && LinkPutAt(h, o.host, d, target) && LinkPutAt(s.lower, o.s.lower, d, target)
  {
    LinkIsApplied(h, s, f, d, target);
    assert [d][1..] == [];
  }

  /** The marker of the deleted file takes away what is found through the link. */
  lemma LostThroughLink(o: Outcome, h: Tree, s: S.State, f: Follow, w: Tree, ws: seq<Path>, d: Path, e: Path,
                        name: Name, other: Side)
    requires WellFormed(h) && WellFormed(s.lower) && d.Child? && Get(h, d).Some? && h[d].Link?
             && Get(s.lower, d) == Get(h, d)
    requires StoreOk(w) && WhiteoutSet(w) == {Child(d, name)} && Child(e, name) in h && !Within(Child(e, name), d)
    requires forall k: Disk :: f(k, Place(OnHost, d)) == Place(OnHost, e)
                               && f(k, Place(InSnapshot, d)) == Place(other, e)
    requires other.InSnapshot? ==> h[Child(e, name)].File? && Get(h, Child(e, name)) == Get(s.lower, Child(e, name))
    requires DeletionOrder(w, d.parent, ws) && Below(Child(d, name), d.parent)
    requires o == DeleteEach(h, s, f, w, d.parent, ws, false)
    ensures o.r == Ok(()) && Child(e, name) !in o.host
  {
    var x, y := Child(d, name), Child(e, name);
    var m := OnlyMarker(w, d.parent, ws, x);
    OnlyDeletion(h, s, f, w, d.parent, ws, m);
    BothThroughLink(h, s, f, d, e, name, other);
    DeletionTakesAway(h, s, f, x);
    HostWithout(Disk(h, s.lower), Place(OnHost, y), Place(other, y));
    assert Within(y, y);
    assert Get(o.host, y) == None;
  }

  /** Looked up through the link, both have the same file, and both places can be emptied. */
  lemma BothThroughLink(h: Tree, s: S.State, f: Follow, d: Path, e: Path, name: Name, other: Side)
    requires WellFormed(h) && WellFormed(s.lower) && d in h && h[d].Link? && d in s.lower && s.lower[d].Link?
    requires forall k: Disk :: f(k, Place(OnHost, d)) == Place(OnHost, e)
                               && f(k, Place(InSnapshot, d)) == Place(other, e)
    requires Child(e, name) in h && !Within(Child(e, name), d)
    requires other.InSnapshot? ==> h[Child(e, name)].File? && Get(h, Child(e, name)) == Get(s.lower, Child(e, name))
    ensures FirstPlace(h, s, f, Child(d, name)) == Place(OnHost, Child(e, name))
    ensures SecondPlace(h, s, f, Child(d, name)) == Place(other, Child(e, name)) && CheckPasses(h, s, f, Child(d, name))
    ensures var k1 := Without(Disk(h, s.lower), Place(OnHost, Child(e, name)));
            !Blocked(k1.On(other), Child(e, name))
  {
    var k, y := Disk(h, s.lower), Child(e, name);
    StandsForItself(k, f, OnHost, d);
    StandsForItself(k, f, InSnapshot, d);
    StandsForItself(Without(k, Place(OnHost, y)), f, InSnapshot, d);
    BlockedMeans(h, y);
    BlockedMeans(s.lower, y);
    RemoveRecursivelyKeepsShape(h, y);
    BlockedMeans(RemoveRecursively(h, y), y);
    if other.InSnapshot? {
      SameBelowAtLeaf(s.lower, y, h, y);
    }
  }

  predicate SameNodeButDirMode(a: Option<Node>, b: Option<Node>) {
    a == b || (a.Some? && b.Some? && a.value.Dir? && b.value.Dir?)
  }
}

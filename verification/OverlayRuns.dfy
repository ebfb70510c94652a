/** Whole runs of an env: what any sequence of successful operations keeps and shows. */
module OverlayRuns {
  import opened Replies
  import opened Trees
  import opened PlainTree
  import opened WhiteoutStore
  import opened OverlayRefinement
  import S = OverlayState

  /** `t` is reached from `s` by the operations, each allowed where it is made and each successful. */
  ghost predicate Run(s: S.State, ops: seq<Op>, t: S.State)
    decreases |ops|
  {
    if ops == [] then s == t
    else
      && Root in s.upper && Allowed(S.View(s), ops[0]) && S.Apply(s, ops[0]).Ok?
      && Run(S.Apply(s, ops[0]).value, ops[1..], t)
  }

  /** None of the operations has a link in its way: no directory is made over a link of the snapshot, and no node
      of the snapshot is renamed onto a link. */
  ghost predicate AllDirect(s: S.State, ops: seq<Op>)
    decreases |ops|
  {
    ops == [] ||
      (Direct(s, ops[0]) &&
       (Root in s.upper && Allowed(S.View(s), ops[0]) && S.Apply(s, ops[0]).Ok? ==>
          AllDirect(S.Apply(s, ops[0]).value, ops[1..])))
  }

  /** The same operations on one plain tree. */
  ghost function PlainRun(v: Tree, ops: seq<Op>): Option<Tree>
    decreases |ops|
  {
    if ops == [] then Some(v)
    else if Allowed(v, ops[0]) && Step(v, ops[0]).Ok? then PlainRun(Step(v, ops[0]).value, ops[1..])
    else None
  }

  /** A new env: the snapshot below, empty layers above. */
  function FreshEnv(lower: Tree, links: S.Links, rootMode: Mode): S.State {
    S.State(lower, map[Root := Dir(rootMode)], {}, links)
  }

  lemma FreshEnvShowsLower(lower: Tree, links: S.Links, rootMode: Mode)
    requires WellFormed(lower)
    ensures S.Inv(FreshEnv(lower, links, rootMode))
    ensures S.View(FreshEnv(lower, links, rootMode)) == lower[Root := Dir(rootMode)]
  {
    var s := FreshEnv(lower, links, rootMode);
    S.ViewIsShow(s);
    forall q ensures Get(S.View(s), q) == Get(lower[Root := Dir(rootMode)], q) {
      assert Get(S.View(s), q) == S.Show(s, q);
    }
    TreesEqual(S.View(s), lower[Root := Dir(rootMode)]);
  }

  // ----- directory modes

  lemma ChildNamesAgree(a: Tree, b: Tree, p: Path)
    requires a.Keys == b.Keys
    ensures ChildNames(a, p) == ChildNames(b, p)
  {
    ChildNamesAreChildren(a, p);
    ChildNamesAreChildren(b, p);
  }

  /** Plain operations do not notice directory modes. */
  lemma StepIgnoresDirModes(a: Tree, b: Tree, op: Op)
    requires SameButDirModes(a, b) && Allowed(a, op)
    ensures Allowed(b, op)
    ensures Step(a, op).Ok? <==> Step(b, op).Ok?
    ensures Step(a, op).Ok? ==> SameButDirModes(Step(a, op).value, Step(b, op).value)
  {
    if op.Rmdir? {
      ChildNamesAgree(a, b, op.path);
    }
  }

  /** The plain step tells `v` from its defaulted form exactly by the modes that changed and stay changed. */
  lemma StepOnDefaulted(v: Tree, ds: set<Path>, op: Op)
    requires Allowed(v, op) && Allowed(Defaulted(v, ds), op) && Step(v, op).Ok? && Step(Defaulted(v, ds), op).Ok?
    requires forall q :: q in ds ==> IsDir(v, q) && CopyTarget(op).Some? && Within(CopyTarget(op).value, q)
    ensures Step(Defaulted(v, ds), op) == Step(v, op) <==>
            forall q :: q in ds ==>
              Get(v, q) == Some(Dir(DEFAULT_DIR_MODE)) || (op.SetAttr? && q == op.path && op.newMode.Some?)
  {
    var w := Defaulted(v, ds);
    if forall q :: q in ds ==> v[q].mode == DEFAULT_DIR_MODE {
      assert w == v;
    } else {
      var q :| q in ds && v[q].mode != DEFAULT_DIR_MODE;
      if forall r :: r in ds ==> v[r].mode == DEFAULT_DIR_MODE || (op.SetAttr? && r == op.path && op.newMode.Some?) {
        var n := Touch(v[q], op.size, op.newMode);
        assert w[q := n] == v[q := n];
        assert Step(w, op) == Ok(w[q := n]);
      } else {
        var r :| r in ds && v[r].mode != DEFAULT_DIR_MODE && !(op.SetAttr? && r == op.path && op.newMode.Some?);
        CopiedDirIsKept(v, w, op, r);
      }
    }
  }

  lemma CopiedDirIsKept(v: Tree, w: Tree, op: Op, r: Path)
    requires Allowed(v, op) && Step(v, op).Ok? && Allowed(w, op) && Step(w, op).Ok?
    requires IsDir(v, r) && w.Keys == v.Keys && w[r] == Dir(DEFAULT_DIR_MODE) && v[r].mode != DEFAULT_DIR_MODE
    requires CopyTarget(op).Some? && Within(CopyTarget(op).value, r)
    requires !(op.SetAttr? && r == op.path && op.newMode.Some?)
    ensures Step(w, op) != Step(v, op)
  {
    if op.Rename? {
      BelowIsStrict(op.to, r);
    }
    assert Get(Step(w, op).value, r) == Some(Dir(DEFAULT_DIR_MODE));
    assert Get(Step(v, op).value, r) == Some(v[r]);
  }

  /** When the view changes exactly as on one plain tree: every directory the operation copies to `upper`
      already has the default mode, or is the one whose mode the operation sets. */
  lemma ExactlyWhenModesAreDefault(s: S.State, op: Op)
    requires S.Inv(s) && Allowed(S.View(s), op) && Succeeds(s, op) && Direct(s, op)
    ensures S.Apply(s, op).Ok?
    ensures Step(S.View(s), op) == Ok(S.View(S.Apply(s, op).value)) <==>
            forall q :: q in CopiedDirs(s, op) ==>
              S.View(s)[q].mode == DEFAULT_DIR_MODE || (op.SetAttr? && q == op.path && op.newMode.Some?)
  {
    ApplyRefines(s, op);
    var v, ds := S.View(s), CopiedDirs(s, op);
    DefaultedIsSame(v, ds, op);
    StepIgnoresDirModes(Defaulted(v, ds), v, op);
    StepOnDefaulted(v, ds, op);
  }

  // ----- runs

  /** One step of a run, next to the same step of a plain tree that differs in directory modes at most. */
  lemma StepRefines(s: S.State, op: Op, v: Tree)
    requires S.Inv(s) && Allowed(S.View(s), op) && S.Apply(s, op).Ok? && Direct(s, op) && SameButDirModes(v, S.View(s))
    ensures var t := S.Apply(s, op).value; S.Inv(t) && t.lower == s.lower && t.links == s.links
    ensures Allowed(v, op) && Step(v, op).Ok?
    ensures SameButDirModes(Step(v, op).value, S.View(S.Apply(s, op).value))
  {
    ApplyRefines(s, op);
    var w := Defaulted(S.View(s), CopiedDirs(s, op));
    DefaultedIsSame(S.View(s), CopiedDirs(s, op), op);
    StepIgnoresDirModes(w, v, op);
  }

  /** From any state with the invariant, a run shows what the same run of plain operations gives, directory
      modes aside; the invariant holds at the end and the snapshot is untouched. */
  lemma {:induction false} RunRefines(s: S.State, ops: seq<Op>, t: S.State, v: Tree)
    requires S.Inv(s) && Run(s, ops, t) && AllDirect(s, ops) && SameButDirModes(v, S.View(s))
    ensures S.Inv(t) && t.lower == s.lower && t.links == s.links
    ensures PlainRun(v, ops).Some? && SameButDirModes(PlainRun(v, ops).value, S.View(t))
    decreases |ops|
  {
    if ops != [] {
      StepRefines(s, ops[0], v);
      RunRefines(S.Apply(s, ops[0]).value, ops[1..], t, Step(v, ops[0]).value);
    }
  }

  /** The run of a new env. */
  lemma FreshRunRefines(lower: Tree, links: S.Links, rootMode: Mode, ops: seq<Op>, t: S.State)
    requires WellFormed(lower) && Run(FreshEnv(lower, links, rootMode), ops, t)
    requires AllDirect(FreshEnv(lower, links, rootMode), ops)
    ensures S.Inv(t) && t.lower == lower && t.links == links
    ensures PlainRun(lower, ops).Some? && SameButDirModes(PlainRun(lower, ops).value, S.View(t))
  {
    FreshEnvShowsLower(lower, links, rootMode);
    RunRefines(FreshEnv(lower, links, rootMode), ops, t, lower);
  }

  /** If the snapshot's directories all have the default mode, the run is exact, modes included. */
  lemma {:induction false} RunIsExact(s: S.State, ops: seq<Op>, t: S.State)
    requires S.Inv(s) && Run(s, ops, t) && AllDirect(s, ops)
    requires forall q :: q in s.lower && s.lower[q].Dir? ==> s.lower[q].mode == DEFAULT_DIR_MODE
    ensures PlainRun(S.View(s), ops) == Some(S.View(t))
    decreases |ops|
  {
    if ops != [] {
      StepIsExact(s, ops[0], S.Apply(s, ops[0]).value);
      RunIsExact(S.Apply(s, ops[0]).value, ops[1..], t);
    }
  }

  lemma StepIsExact(s: S.State, op: Op, t: S.State)
    requires S.Inv(s) && Allowed(S.View(s), op) && S.Apply(s, op) == Ok(t) && Direct(s, op)
    requires forall q :: q in s.lower && s.lower[q].Dir? ==> s.lower[q].mode == DEFAULT_DIR_MODE
    ensures S.Inv(t) && t.lower == s.lower && Step(S.View(s), op) == Ok(S.View(t))
  {
    ApplyRefines(s, op);
    ExactlyWhenModesAreDefault(s, op);
    forall q | q in CopiedDirs(s, op) ensures S.View(s)[q].mode == DEFAULT_DIR_MODE {
      ViewAt(s, q);
    }
  }

  lemma {:induction false} RunSplits(s: S.State, a: seq<Op>, b: seq<Op>, t: S.State) returns (m: S.State)
    requires Run(s, a + b, t) && AllDirect(s, a + b)
    ensures Run(s, a, m) && Run(m, b, t) && AllDirect(s, a) && AllDirect(m, b)
    decreases |a|
  {
    if a == [] {
      assert a + b == b;
      m := s;
    } else {
      assert (a + b)[0] == a[0] && (a + b)[1..] == a[1..] + b;
      m := RunSplits(S.Apply(s, a[0]).value, a[1..], b, t);
    }
  }

  // ----- removed and remade directories

  /** Nothing is visible below `d`. */
  ghost predicate EmptyBelow(v: Tree, d: Path) {
    forall q :: q in v ==> !Below(q, d)
  }

  /** The operation neither makes nor moves anything to a path below `d`. */
  predicate Outside(op: Op, d: Path) {
    match op
    case Create(p, _) => !Below(p, d)
    case Mkdir(p, _) => !Below(p, d)
    case Symlink(p, _) => !Below(p, d)
    case Rename(_, to) => !Below(to, d)
    case _ => true
  }

  lemma {:induction false} StaysEmpty(s: S.State, d: Path, ops: seq<Op>, t: S.State)
    requires S.Inv(s) && Run(s, ops, t) && AllDirect(s, ops) && EmptyBelow(S.View(s), d)
    requires forall i :: 0 <= i < |ops| ==> Outside(ops[i], d)
    ensures EmptyBelow(S.View(t), d)
    decreases |ops|
  {
    if ops != [] {
      ApplyRefines(s, ops[0]);
      var s1 := S.Apply(s, ops[0]).value;
      var w := Defaulted(S.View(s), CopiedDirs(s, ops[0]));
      assert Outside(ops[0], d);
      forall q | q in S.View(s1) ensures !Below(q, d) {
        assert q in Step(w, ops[0]).value;
      }
      StaysEmpty(s1, d, ops[1..], t);
    }
  }

  /** A directory made in any run without links in the way starts empty, whatever the snapshot still holds below
      it, and nothing of the snapshot shows there later: only what is made or moved in afterwards. */
  lemma RemadeDirectoryStartsEmpty(s: S.State, before: seq<Op>, d: Path, perm: nat, after: seq<Op>, t: S.State)
    requires S.Inv(s) && Run(s, before + [Mkdir(d, perm)] + after, t)
    requires AllDirect(s, before + [Mkdir(d, perm)] + after)
    requires forall i :: 0 <= i < |after| ==> Outside(after[i], d)
    ensures EmptyBelow(S.View(t), d)
  {
    var m := RunSplits(s, before + [Mkdir(d, perm)], after, t);
    var k := RunSplits(s, before, [Mkdir(d, perm)], m);
    RunRefines(s, before, k, S.View(s));
    RunOfOne(k, Mkdir(d, perm), m);
    MadeDirectoryIsEmpty(k, d, perm);
    StaysEmpty(m, d, after, t);
  }

  lemma RunOfOne(s: S.State, op: Op, t: S.State)
    requires Run(s, [op], t)
    ensures Allowed(S.View(s), op) && S.Apply(s, op) == Ok(t)
    ensures AllDirect(s, [op]) ==> Direct(s, op)
  {
    assert [op][1..] == [];
    assert Run(S.Apply(s, op).value, [], t);
  }

  lemma MadeDirectoryIsEmpty(s: S.State, d: Path, perm: nat)
    requires S.Inv(s) && Allowed(S.View(s), Mkdir(d, perm)) && S.Apply(s, Mkdir(d, perm)).Ok?
             && Direct(s, Mkdir(d, perm))
    ensures S.Inv(S.Apply(s, Mkdir(d, perm)).value) && EmptyBelow(S.View(S.Apply(s, Mkdir(d, perm)).value), d)
  {
    ApplyRefines(s, Mkdir(d, perm));
    S.ViewIsShow(s);
    var v := S.View(s);
    forall q | q in S.View(S.Apply(s, Mkdir(d, perm)).value) ensures !Below(q, d) {
      assert q in v || q == d;
      if Below(q, d) {
        BelowIsStrict(q, d);
        NothingBelow(v, q, d);
      }
    }
  }

  // ----- where the layers refuse what a plain tree allows

  /** In any snapshot: a file is replaced by a directory and a file is made inside it. Removing that file
      again is refused, because the snapshot's file stands in the way of looking below it. */
  lemma UnlinkBelowReplacedFile(lower: Tree, links: S.Links, a: Path, name: Name) returns (t: S.State)
    requires WellFormed(lower) && a in lower && lower[a].File?
    ensures Run(FreshEnv(lower, links, DEFAULT_DIR_MODE), [Unlink(a), Mkdir(a, 0), Create(Child(a, name), 0)], t)
    ensures Allowed(S.View(t), Unlink(Child(a, name))) && Step(S.View(t), Unlink(Child(a, name))).Ok?
    ensures Root in t.upper && S.Apply(t, Unlink(Child(a, name))) == Err(Io)
  {
    var s1, s2 := ReplaceFile(lower, links, a);
    t := FileMadeInside(s2, lower, a, Child(a, name));
    RunOfThree(FreshEnv(lower, links, DEFAULT_DIR_MODE), Unlink(a), s1, Mkdir(a, 0), s2, Create(Child(a, name), 0), t);
    UnlinkRefused(t, lower, a, Child(a, name), (lower - {a})[a := Dir(0)][Child(a, name) := File([], 0)]);
  }

  lemma FileMadeInside(s: S.State, lower: Tree, a: Path, x: Path) returns (t: S.State)
    requires WellFormed(lower) && a in lower && lower[a].File? && s.lower == lower && x.Child? && x.parent == a
    requires S.Inv(s) && SameButDirModes((lower - {a})[a := Dir(0)], S.View(s))
    ensures Allowed(S.View(s), Create(x, 0)) && S.Apply(s, Create(x, 0)) == Ok(t) && S.Inv(t) && t.lower == lower
    ensures SameButDirModes((lower - {a})[a := Dir(0)][x := File([], 0)], S.View(t))
  {
    BelowIsStrict(x, a);
    NothingBelow(lower, x, a);
    t := RunStep(s, Create(x, 0), (lower - {a})[a := Dir(0)]);
  }

  /** The first two steps of that run */
  lemma ReplaceFile(lower: Tree, links: S.Links, a: Path) returns (s1: S.State, s2: S.State)
    requires WellFormed(lower) && a in lower && lower[a].File?
    ensures var s0 := FreshEnv(lower, links, DEFAULT_DIR_MODE);
            Root in s0.upper && Allowed(S.View(s0), Unlink(a)) && S.Apply(s0, Unlink(a)) == Ok(s1)
    ensures Root in s1.upper && Allowed(S.View(s1), Mkdir(a, 0)) && S.Apply(s1, Mkdir(a, 0)) == Ok(s2)
    ensures S.Inv(s2) && s2.lower == lower && SameButDirModes((lower - {a})[a := Dir(0)], S.View(s2))
  {
    FreshEnvShowsLower(lower, links, DEFAULT_DIR_MODE);
    s1 := FileRemoved(FreshEnv(lower, links, DEFAULT_DIR_MODE), lower, a);
    s2 := DirMadeInstead(s1, lower, a);
  }

  lemma DirMadeInstead(s: S.State, lower: Tree, a: Path) returns (t: S.State)
    requires WellFormed(lower) && a in lower && lower[a].File? && s.lower == lower
    requires S.Inv(s) && SameButDirModes(lower - {a}, S.View(s))
    ensures Allowed(S.View(s), Mkdir(a, 0)) && S.Apply(s, Mkdir(a, 0)) == Ok(t)
    ensures S.Inv(t) && t.lower == lower && SameButDirModes((lower - {a})[a := Dir(0)], S.View(t))
  {
    t := RunStep(s, Mkdir(a, 0), lower - {a});
  }

  lemma FileRemoved(s: S.State, lower: Tree, x: Path) returns (t: S.State)
    requires WellFormed(lower) && x in lower && lower[x].File? && s.lower == lower
    requires S.Inv(s) && SameButDirModes(lower, S.View(s)) && Root in s.upper
    ensures Allowed(S.View(s), Unlink(x)) && S.Apply(s, Unlink(x)) == Ok(t)
    ensures S.Inv(t) && t.lower == lower && t.links == s.links && Root in t.upper
    ensures SameButDirModes(lower - {x}, S.View(t))
  {
    BlockedMeans(lower, x);
    t := RunStep(s, Unlink(x), lower);
  }

  lemma UnlinkRefused(t: S.State, lower: Tree, a: Path, x: Path, v: Tree)
    requires S.Inv(t) && t.lower == lower && WellFormed(lower) && a in lower && lower[a].File? && x.Child?
             && x.parent == a
    requires SameButDirModes(v, S.View(t)) && Get(v, x) == Some(File([], 0))
    ensures Allowed(S.View(t), Unlink(x)) && Step(S.View(t), Unlink(x)).Ok?
    ensures Root in t.upper && S.Apply(t, Unlink(x)) == Err(Io)
  {
    BelowIsStrict(x, a);
    NothingBelow(lower, x, a);
    BlockedMeans(lower, x);
    assert x in S.View(t) && S.View(t)[x] == File([], 0);
    ApplyRefines(t, Unlink(x));
  }

  lemma RunStep(s: S.State, op: Op, v: Tree) returns (t: S.State)
    requires S.Inv(s) && Allowed(S.View(s), op) && Succeeds(s, op) && Direct(s, op) && SameButDirModes(v, S.View(s))
    ensures S.Apply(s, op) == Ok(t) && S.Inv(t) && t.lower == s.lower && t.links == s.links
    ensures Allowed(v, op) && Step(v, op).Ok? && SameButDirModes(Step(v, op).value, S.View(t))
  {
    ApplyRefines(s, op);
    StepRefines(s, op, v);
    t := S.Apply(s, op).value;
  }

  lemma RunOfTwo(s0: S.State, a: Op, s1: S.State, b: Op, s2: S.State)
    requires Root in s0.upper && Allowed(S.View(s0), a) && S.Apply(s0, a) == Ok(s1)
    requires Root in s1.upper && Allowed(S.View(s1), b) && S.Apply(s1, b) == Ok(s2)
    ensures Run(s0, [a, b], s2)
  {
    assert [a, b][1..] == [b] && [b][1..] == [];
    assert Run(s2, [], s2);
    assert Run(s1, [b], s2);
  }

  lemma RunOfThree(s0: S.State, a: Op, s1: S.State, b: Op, s2: S.State, c: Op, s3: S.State)
    requires Root in s0.upper && Allowed(S.View(s0), a) && S.Apply(s0, a) == Ok(s1)
    requires Root in s1.upper && Allowed(S.View(s1), b) && S.Apply(s1, b) == Ok(s2)
    requires Root in s2.upper && Allowed(S.View(s2), c) && S.Apply(s2, c) == Ok(s3)
    ensures Run(s0, [a, b, c], s3)
  {
    assert [a, b, c][1..] == [b, c] && [b, c][1..] == [c] && [c][1..] == [];
    assert Run(s3, [], s3);
    assert Run(s2, [c], s3);
    assert Run(s1, [b, c], s3);
  }
}

/** What writing an env's changes back to the host does, step by step, and what every step keeps. */
module CommitSafety {
  import opened Replies
  import opened Trees
  import opened WhiteoutStore
  import opened TreeComparison
  import opened PathLookup
  import opened StorageCleanup
  import opened CommitSteps
  import S = OverlayState

  /** What a crash at some point of a commit would leave. */
  datatype Moment = Moment(host: Tree, layers: S.State)

  /** How far some steps came: their result, the state they leave, and every state in between. */
  datatype Outcome = Outcome(r: Reply<()>, host: Tree, s: S.State, moments: seq<Moment>)

  // ----- the steps

  /** ensure_no_host_conflict, at the places the path stands for in the snapshot and on the host */
  function EnsureNoHostConflict(k: Disk, lp: Place, hp: Place, force: bool): Reply<()>
    requires k.Valid()
  {
    if force then Ok(())
    else
      match PathsEquivalent(k.On(lp.side), lp.path, k.On(hp.side), hp.path)
      case Err(e) => Err(e)
      case Ok(same) => if same then Ok(()) else Err(Conflict)
  }

  /** What the two places hold can be looked up and is the same. */
  ghost predicate Passes(k: Disk, lp: Place, hp: Place) {
    var l, h := k.On(lp.side), k.On(hp.side);
    !Blocked(l, lp.path) && !Blocked(h, hp.path) && SameBelow(l, lp.path, h, hp.path)
  }

  /** It can be looked up and is not the same: host edits would be lost. */
  ghost predicate Differs(k: Disk, lp: Place, hp: Place) {
    var l, h := k.On(lp.side), k.On(hp.side);
    !Blocked(l, lp.path) && !Blocked(h, hp.path) && !SameBelow(l, lp.path, h, hp.path)
  }

  lemma EnsureNoHostConflictMeans(k: Disk, lp: Place, hp: Place, force: bool)
    requires k.Valid()
    ensures EnsureNoHostConflict(k, lp, hp, force).Ok? <==> force || Passes(k, lp, hp)
    ensures EnsureNoHostConflict(k, lp, hp, force) == Err(Conflict) <==> !force && Differs(k, lp, hp)
    ensures EnsureNoHostConflict(k, lp, hp, force).Err? ==>
              EnsureNoHostConflict(k, lp, hp, force).errno in {Conflict, NotADirectory}
  {
    PathsEquivalentIsExact(k.On(lp.side), lp.path, k.On(hp.side), hp.path);
  }

  /** The moment at which the disk is as given; the env's other layers have not changed. */
  function MomentAt(s: S.State, k: Disk): Moment {
    Moment(k.host, s.(lower := k.lower))
  }

  function MomentsOn(s: S.State, trail: Trail): seq<Moment> {
    [MomentAt(s, trail.cleared), MomentAt(s, trail.made), MomentAt(s, trail.done)]
  }

  /** What steps that left the disk as given have come to */
  function Reached(r: Reply<()>, s: S.State, k: Disk, moments: seq<Moment>): Outcome {
    Outcome(r, k.host, s.(lower := k.lower), moments)
  }

  lemma ApplyAtKeepsShape(n: Node, k: Disk, follow: Follow, r: Place)
    requires k.Valid() && r.path.Child?
    ensures var applied := ApplyAt(n, k, follow, r);
            applied.Ok? ==> applied.value.cleared.Valid() && applied.value.made.Valid() && applied.value.done.Valid()
  {
    ApplyUpperPathEffect(n, k.On(r.side), r.path);
    if ApplyAt(n, k, follow, r).Ok? {
      OnTheWay(n, k.On(r.side), r.path);
    }
  }

  /** One upper entry, applied to the host and to the snapshot */
  function ApplyBoth(h: Tree, s: S.State, f: Follow, v: Path): (o: Outcome)
    requires WellFormed(h) && WellFormed(s.lower) && v.Child? && v in s.upper
    ensures WellFormed(o.host) && WellFormed(o.s.lower) && o.s == s.(lower := o.s.lower)
  {
    var k, n := Disk(h, s.lower), s.upper[v];
    var hp := Real(k, f, OnHost, v);
    ApplyAtKeepsShape(n, k, f, hp);
    match ApplyAt(n, k, f, hp)
    case Err(e) => Outcome(Err(e), h, s, [])
    case Ok(onHost) =>
      var lp := Real(onHost.done, f, InSnapshot, v);
      ApplyAtKeepsShape(n, onHost.done, f, lp);
      match ApplyAt(n, onHost.done, f, lp)
      case Err(e) => Reached(Err(e), s, onHost.done, MomentsOn(s, onHost))
      case Ok(inLower) => Reached(Ok(()), s, inLower.done, MomentsOn(s, onHost) + MomentsOn(s, inLower))
  }

  /** The same, checked first */
  function ApplyOne(h: Tree, s: S.State, f: Follow, v: Path, force: bool): (o: Outcome)
    requires WellFormed(h) && WellFormed(s.lower) && v.Child? && v in s.upper
    ensures WellFormed(o.host) && WellFormed(o.s.lower) && o.s == s.(lower := o.s.lower)
  {
    var k := Disk(h, s.lower);
    match EnsureNoHostConflict(k, Real(k, f, InSnapshot, v), Real(k, f, OnHost, v), force)
    case Err(e) => Outcome(Err(e), h, s, [])
    case Ok(_) => ApplyBoth(h, s, f, v)
  }

  /** remove_path_recursively_if_exists at a place */
  function RemoveAt(k: Disk, r: Place): Reply<Disk> {
    match RemoveIfExists(k.On(r.side), r.path)
    case Err(e) => Err(e)
    case Ok(t) => Ok(k.With(r.side, t))
  }

  /** The disk without what lies at the place */
  function Without(k: Disk, r: Place): Disk {
    k.With(r.side, RemoveRecursively(k.On(r.side), r.path))
  }

  lemma RemoveAtMeans(k: Disk, r: Place)
    requires k.Valid() && r.path.Child?
    ensures RemoveAt(k, r).Ok? <==> !Blocked(k.On(r.side), r.path)
    ensures RemoveAt(k, r).Ok? ==> RemoveAt(k, r).value == Without(k, r)
    ensures RemoveAt(k, r).Err? ==> RemoveAt(k, r) == Err(NotADirectory)
    ensures Without(k, r).Valid()
  {
    RemoveIfExistsEffect(k.On(r.side), r.path);
  }

  /** One deletion, checked and then carried out on the host and in the snapshot */
  function DeleteOne(h: Tree, s: S.State, f: Follow, p: Path, force: bool): (o: Outcome)
    requires WellFormed(h) && WellFormed(s.lower) && p.Child?
    ensures WellFormed(o.host) && WellFormed(o.s.lower) && o.s == s.(lower := o.s.lower)
  {
    var k := Disk(h, s.lower);
    var hp := Real(k, f, OnHost, p);
    match EnsureNoHostConflict(k, Real(k, f, InSnapshot, p), hp, force)
    case Err(e) => Outcome(Err(e), h, s, [])
    case Ok(_) =>
      RemoveAtMeans(k, hp);
      match RemoveAt(k, hp)
      case Err(e) => Outcome(Err(e), h, s, [])
      case Ok(k1) =>
        var lp := Real(k1, f, InSnapshot, p);
        RemoveAtMeans(k1, lp);
        match RemoveAt(k1, lp)
        case Err(e) => Reached(Err(e), s, k1, [MomentAt(s, k1)])
        case Ok(k2) => Reached(Ok(()), s, k2, [MomentAt(s, k1), MomentAt(s, k2)])
  }

  /** The outcome of steps taken after the moments `ms` */
  function After(ms: seq<Moment>, rest: Outcome): Outcome {
    rest.(moments := ms + rest.moments)
  }

  lemma AfterAfter(a: seq<Moment>, b: seq<Moment>, rest: Outcome)
    ensures After(a, After(b, rest)) == After(a + b, rest)
  {
    assert a + (b + rest.moments) == a + b + rest.moments;
  }

  /** The upper entries, one after the other, up to the first error */
  function ApplyEach(h: Tree, s: S.State, f: Follow, es: seq<Path>, force: bool): (o: Outcome)
    requires WellFormed(h) && WellFormed(s.lower) && forall v :: v in es ==> v.Child? && v in s.upper
    ensures WellFormed(o.host) && WellFormed(o.s.lower) && o.s == s.(lower := o.s.lower)
    decreases |es|
  {
    if es == [] then Outcome(Ok(()), h, s, [])
    else
      var first := ApplyOne(h, s, f, es[0], force);
      if first.r.Err? then first else After(first.moments, ApplyEach(first.host, first.s, f, es[1..], force))
  }

  /** The entry of the store is passed over: it is no marker, or not one of a path in the source. */
  predicate PassedOver(w: Tree, source: Path, e: Path) {
    e !in w || w[e].Dir? || !Below(VisibleFromStorage(w, e), source)
  }

  /** The deletions, one after the other, up to the first error */
  function DeleteEach(h: Tree, s: S.State, f: Follow, w: Tree, source: Path, es: seq<Path>, force: bool): (o: Outcome)
    requires WellFormed(h) && WellFormed(s.lower)
    ensures WellFormed(o.host) && WellFormed(o.s.lower) && o.s == s.(lower := o.s.lower)
    decreases |es|
  {
    if es == [] then Outcome(Ok(()), h, s, [])
    else if PassedOver(w, source, es[0]) then DeleteEach(h, s, f, w, source, es[1..], force)
    else
      var first := DeleteOne(h, s, f, VisibleFromStorage(w, es[0]), force);
      if first.r.Err? then first else After(first.moments, DeleteEach(first.host, first.s, f, w, source, es[1..],
                                                                      force))
  }

  lemma RemoveIfExistsEffect(t: Tree, p: Path)
    requires WellFormed(t) && p.Child?
    ensures RemoveIfExists(t, p).Ok? <==> !Blocked(t, p)
    ensures RemoveIfExists(t, p).Err? ==> RemoveIfExists(t, p) == Err(NotADirectory)
    ensures RemoveIfExists(t, p).Ok? ==> RemoveIfExists(t, p).value == RemoveRecursively(t, p)
    ensures WellFormed(RemoveRecursively(t, p))
  {
    BlockedMeans(t, p);
    RemoveRecursivelyKeepsShape(t, p);
    if p !in t {
      forall q | q in t ensures !Within(q, p) {
        if Within(q, p) {
          AncestorsAreDirs(t, q, p);
        }
      }
      assert RemoveRecursively(t, p) == t;
    }
  }

  // ----- what a moment of the commit keeps

  /** The env sees the same tree below the source directory. */
  ghost predicate SameViewBelow(s: S.State, s0: S.State, source: Path) {
    forall q :: Below(q, source) ==> Get(S.View(s), q) == Get(S.View(s0), q)
  }

  /** An upper directory outside the source that holds no file or link outside the source: clearing the layer
      drops it. */
  ghost predicate Hollow(u: Tree, source: Path, p: Path) {
    && IsDir(u, p) && p != Root && !Below(p, source)
    && forall q :: q in u && Within(q, p) && !u[q].Dir? ==> Below(q, source)
  }

  /** Every directory that clearing drops is in the snapshot with the same mode. */
  ghost predicate HollowsMatch(s: S.State, source: Path) {
    forall p :: Hollow(s.upper, source, p) ==> Get(s.lower, p) == Get(s.upper, p)
  }

  /** Outside the source the layers are as they were, hollow directories of the upper layer aside. */
  ghost predicate OutsideSeen(s: S.State, s0: S.State, source: Path) {
    && (forall q :: !Below(q, source) ==> Get(s.lower, q) == Get(s0.lower, q) && (q in s.gone <==> q in s0.gone))
    && (forall q :: !Below(q, source) && q in s.upper ==> Get(s0.upper, q) == Get(s.upper, q))
    && (forall q :: !Below(q, source) && q in s0.upper && !Hollow(s0.upper, source, q) ==> q in s.upper)
  }

  /** At this moment the env sees below the source what it saw at the start, and unless forced no host edit is
      lost: whatever differed from the snapshot, present or missing, is on the host as it was. */
  ghost predicate SafeBelow(m: Moment, h0: Tree, s0: S.State, source: Path, force: bool) {
    && S.Inv(m.layers) && SameViewBelow(m.layers, s0, source)
    && OutsideKept(h0, m.host, source)
    && (!force ==> forall q :: Below(q, source) && Get(h0, q) != Get(s0.lower, q) ==> Get(m.host, q) == Get(h0, q))
  }

  /** The same, and outside the source it sees what it saw but for hollow directories. */
  ghost predicate Safe(m: Moment, h0: Tree, s0: S.State, source: Path, force: bool) {
    SafeBelow(m, h0, s0, source, force) && OutsideSeen(m.layers, s0, source)
  }

  /** No symbolic link is on the way to the source on the host. */
  ghost predicate SourceStraight(h: Tree, source: Path) {
    forall a :: Within(source, a) ==> NoLinkAt(h, a)
  }

  /** No symbolic link is in the way of the commit: none on the way to the source, and none strictly above a path
      the env has deleted. The caller can look this up before the commit. */
  ghost predicate Straight(h: Tree, s: S.State, source: Path) {
    && SourceStraight(h, source)
    && forall w, a :: w in s.gone && Below(w, source) && Below(w, a) ==>
         NoLinkAt(h, a) && NoLinkAt(s.lower, a) && NoLinkAt(s.upper, a)
  }

  predicate NoLinkAt(t: Tree, a: Path) {
    a in t ==> !t[a].Link?
  }

  /** Host and snapshot agree at and below everything the env has written or deleted. */
  ghost predicate Agreed(h: Tree, s: S.State, source: Path) {
    forall p :: Below(p, source) && (p in s.upper || p in s.gone) ==> SameSubtree(s.lower, h, p)
  }

  /** The same for everything it has written. */
  ghost predicate UppersAgreed(h: Tree, s: S.State, source: Path) {
    forall v :: v in s.upper && Below(v, source) ==> SameSubtree(s.lower, h, v)
  }

  /** Nothing but directories is above the deleted paths on the host. */
  ghost predicate DeletionsInReach(h: Tree, s: S.State, source: Path) {
    forall w, a :: w in s.gone && Below(w, source) && Below(w, a) && a in h ==> h[a].Dir?
  }

  /** A deleted path lies below a path the env has meanwhile made a file or link of. */
  ghost predicate StaleWhiteout(s: S.State, source: Path) {
    exists w, a :: w in s.gone && Below(w, source) && Below(w, a) && a in s.upper && !s.upper[a].Dir?
  }

  /** Below the source every node is the one that was there, or the env's. */
  ghost predicate Origins(t0: Tree, u: Tree, t: Tree, source: Path) {
    forall q :: Below(q, source) && q in t ==> Get(t, q) == Get(t0, q) || Get(t, q) == Get(u, q)
  }

  /** What every step of the commit keeps below the source. */
  ghost predicate Advances(h0: Tree, s0: S.State, h: Tree, s: S.State, source: Path, force: bool) {
    && WellFormed(h) && S.Inv(s) && IsDir(s.lower, source) && source !in s.gone
    && (forall q :: Below(q, source) ==> S.Show(s, q) == S.Show(s0, q))
    && OutsideKept(h0, h, source)
    && (!force ==> EditsKept(h0, s0.lower, h, s.lower, source))
    && SameKept(h0, s0.lower, h, s.lower, source)
    && Origins(s0.lower, s0.upper, s.lower, source) && Origins(h0, s0.upper, h, source)
  }

  /** What every step of the commit keeps. */
  ghost predicate Progress(h0: Tree, s0: S.State, h: Tree, s: S.State, source: Path, force: bool) {
    Advances(h0, s0, h, s, source, force) && OutsideSeen(s, s0, source)
  }

  lemma AdvancesIsSafe(h0: Tree, s0: S.State, h: Tree, s: S.State, source: Path, force: bool)
    requires S.Inv(s0) && Advances(h0, s0, h, s, source, force)
    ensures SafeBelow(Moment(h, s), h0, s0, source, force)
  {
    S.ViewIsShow(s);
    S.ViewIsShow(s0);
    forall q | Below(q, source) ensures Get(S.View(s), q) == Get(S.View(s0), q) {
      assert Get(S.View(s), q) == S.Show(s, q);
      assert Get(S.View(s0), q) == S.Show(s0, q);
    }
  }

  lemma ProgressIsSafe(h0: Tree, s0: S.State, h: Tree, s: S.State, source: Path, force: bool)
    requires S.Inv(s0) && Progress(h0, s0, h, s, source, force)
    ensures Safe(Moment(h, s), h0, s0, source, force)
  {
    AdvancesIsSafe(h0, s0, h, s, source, force);
  }

  // ----- the first half: upper nodes

  /** The upper entries in the order they are applied. */
  ghost predicate UpperOrder(u: Tree, source: Path, es: seq<Path>) {
    && NoDuplicates(es) && ByDepth(es, false)
    && forall q :: q in es <==> q in EntriesUnder(u, source)
  }

  /** The first `i` entries are in `t`. */
  ghost predicate AppliedTo(t: Tree, u: Tree, es: seq<Path>, i: nat) {
    i <= |es| && forall j :: 0 <= j < i ==> Get(t, es[j]) == Get(u, es[j])
  }

  /** Shallow first: by the time a node is applied, the directories on its way are in place. */
  lemma WayApplied(t: Tree, u: Tree, source: Path, es: seq<Path>, i: nat)
    requires WellFormed(u) && UpperOrder(u, source, es) && AppliedTo(t, u, es, i) && i < |es| && IsDir(t, source)
    ensures es[i] in u && Below(es[i], source) && WayExists(t, es[i], source) && IsDir(t, es[i].parent)
  {
    WayAppliedBelow(t, u, source, es, i);
  }

  lemma WayAppliedBelow(t: Tree, u: Tree, source: Path, es: seq<Path>, i: nat)
    requires WellFormed(u) && UpperOrder(u, source, es) && AppliedTo(t, u, es, i) && i < |es|
    ensures es[i] in u && Below(es[i], source) && WayExists(t, es[i], source)
    ensures es[i].parent != source ==> IsDir(t, es[i].parent)
  {
    var v := es[i];
    assert v in es;
    forall a | Below(v, a) && Below(a, source) ensures IsDir(t, a) {
      AncestorsAreDirs(u, v, a);
      BelowIsStrict(v, a);
      WithinDepth(v.parent, a);
      assert a in es;
      var j :| 0 <= j < |es| && es[j] == a;
      assert Rank(a, false) < Rank(v, false);
      assert j < i;
      assert Get(t, a) == Get(u, a);
    }
    if v.parent != source {
      assert Below(v, v.parent) && Below(v.parent, source);
    }
  }

  /** Applying the next node leaves the earlier ones as they are. */
  lemma AppliedStays(t: Tree, u: Tree, source: Path, es: seq<Path>, i: nat)
    requires WellFormed(t) && WellFormed(u) && UpperOrder(u, source, es) && AppliedTo(t, u, es, i) && i < |es|
    requires es[i] in u && Below(es[i], source) && WayExists(t, es[i], source) && ApplyUpperPath(u[es[i]], t, es[i]).Ok?
    ensures AppliedTo(ApplyUpperPath(u[es[i]], t, es[i]).value, u, es, i + 1)
  {
    var v := es[i];
    ApplyStaysInside(u[v], t, v, source);
    ApplyUpperPathEffect(u[v], t, v);
    var t1 := ApplyUpperPath(u[v], t, v).value;
    forall j | 0 <= j < i ensures Get(t1, es[j]) == Get(u, es[j]) {
      assert es[j] in es;
      assert Rank(es[j], false) <= Rank(v, false);
      if Within(es[j], v) {
        WithinDepth(es[j], v);
      }
    }
  }

  lemma UpperStepBelow(h0: Tree, s0: S.State, h: Tree, s: S.State, source: Path, force: bool, v: Path)
    requires Advances(h0, s0, h, s, source, force) && S.Inv(s0) && s.upper == s0.upper
    requires Below(v, source) && v in s.upper && (force || SameSubtree(s.lower, h, v))
    requires WayExists(h, v, source) && WayExists(s.lower, v, source) && IsDir(s.lower, v.parent)
    requires ApplyUpperPath(s.upper[v], h, v).Ok?
    ensures ApplyUpperPath(s.upper[v], s.lower, v).Ok?
    ensures var h1 := ApplyUpperPath(s.upper[v], h, v).value;
            var l1 := ApplyUpperPath(s.upper[v], s.lower, v).value;
            SafeBelow(Moment(h1, s), h0, s0, source, force) && Advances(h0, s0, h1, s.(lower := l1), source, force)
  {
    ApplyToLowerShows(s, v);
    var n := s.upper[v];
    var h1 := ApplyUpperPath(n, h, v).value;
    var l1 := ApplyUpperPath(n, s.lower, v).value;
    ApplyStaysInside(n, h, v, source);
    ApplyUpperPathEffect(n, h, v);
    if !force {
      ApplyKeepsEdits(h0, s0.lower, h, s.lower, source, v, n);
    }
    forall p | Below(p, source) && SameSubtree(s0.lower, h0, p) ensures SameSubtree(l1, h1, p) {
      ApplyKeepsSame(h, s.lower, source, v, n, p);
    }
    OutsideKeptTransitive(h0, h, h1, source);
    StepOrigins(s0.lower, s0.upper, s.lower, source, v);
    StepOrigins(h0, s0.upper, h, source, v);
    SourceStays(s.lower, source, v, n);
    AdvancesIsSafe(h0, s0, h, s, source, force);
  }

  /** One upper node applied to the host and to the snapshot: the steps in between and after keep everything. */
  lemma UpperStep(h0: Tree, s0: S.State, h: Tree, s: S.State, source: Path, force: bool, v: Path)
    requires Progress(h0, s0, h, s, source, force) && S.Inv(s0) && s.upper == s0.upper
    requires Below(v, source) && v in s.upper && (force || SameSubtree(s.lower, h, v))
    requires WayExists(h, v, source) && WayExists(s.lower, v, source) && IsDir(s.lower, v.parent)
    requires ApplyUpperPath(s.upper[v], h, v).Ok?
    ensures ApplyUpperPath(s.upper[v], s.lower, v).Ok?
    ensures var h1 := ApplyUpperPath(s.upper[v], h, v).value;
            var l1 := ApplyUpperPath(s.upper[v], s.lower, v).value;
            Safe(Moment(h1, s), h0, s0, source, force) && Progress(h0, s0, h1, s.(lower := l1), source, force)
  {
    UpperStepBelow(h0, s0, h, s, source, force, v);
    UpperStepOutside(s0, s, source, v);
  }

  lemma UpperStepOutside(s0: S.State, s: S.State, source: Path, v: Path)
    requires OutsideSeen(s, s0, source) && WellFormed(s.lower) && Below(v, source) && v in s.upper
    requires WayExists(s.lower, v, source) && IsDir(s.lower, v.parent) && ApplyUpperPath(s.upper[v], s.lower, v).Ok?
    ensures OutsideSeen(s.(lower := ApplyUpperPath(s.upper[v], s.lower, v).value), s0, source)
  {
    ApplyStaysInside(s.upper[v], s.lower, v, source);
    forall q | !Below(q, source) ensures !Within(q, v) {
      if Within(q, v) {
        WithinBelow(q, v, source);
      }
    }
  }

  /** If a checked subtree still agrees, it agreed at the start. */
  lemma EditsWouldShow(h0: Tree, l0: Tree, h: Tree, l: Tree, source: Path, v: Path)
    requires EditsKept(h0, l0, h, l, source) && SameSubtree(l, h, v) && Below(v, source)
    ensures SameSubtree(l0, h0, v)
  {
    forall q | Within(q, v) ensures Get(l0, q) == Get(h0, q) {
      WithinBelow(q, v, source);
      assert Get(l, q) == Get(h, q);
    }
  }

  lemma OutsideKeptTransitive(a: Tree, b: Tree, c: Tree, source: Path)
    requires OutsideKept(a, b, source) && OutsideKept(b, c, source)
    ensures OutsideKept(a, c, source)
  {
    forall q | !Below(q, source) && q in a ensures Get(c, q) == Get(a, q) {
      assert Get(b, q) == Get(a, q);
    }
  }

  /** What one step puts into a tree is the env's. */
  lemma StepOrigins(t0: Tree, u: Tree, t: Tree, source: Path, v: Path)
    requires WellFormed(t) && Origins(t0, u, t, source) && Below(v, source) && v in u
    requires WayExists(t, v, source) && ApplyUpperPath(u[v], t, v).Ok?
    ensures Origins(t0, u, ApplyUpperPath(u[v], t, v).value, source)
  {
    ApplyStaysInside(u[v], t, v, source);
    ApplyUpperPathEffect(u[v], t, v);
    var t1 := ApplyUpperPath(u[v], t, v).value;
    forall q | Below(q, source) && q in t1 ensures Get(t1, q) == Get(t0, q) || Get(t1, q) == Get(u, q) {
      if q != v {
        assert Get(t1, q) == Get(t, q);
      }
    }
  }

  lemma SourceStays(t: Tree, source: Path, v: Path, n: Node)
    requires WellFormed(t) && IsDir(t, source) && Below(v, source) && WayExists(t, v, source)
             && ApplyUpperPath(n, t, v).Ok?
    ensures IsDir(ApplyUpperPath(n, t, v).value, source)
  {
    ApplyStaysInside(n, t, v, source);
    if Below(source, source) {
      BelowIsStrict(source, source);
    }
    assert Get(ApplyUpperPath(n, t, v).value, source) == Get(t, source);
  }

  // ----- the second half: deletions

  lemma DeletionStepBelow(h0: Tree, s0: S.State, h: Tree, s: S.State, source: Path, force: bool, w: Path)
    requires Advances(h0, s0, h, s, source, force) && S.Inv(s0)
    requires w in s.gone && Below(w, source) && (force || SameSubtree(s.lower, h, w))
    ensures SafeBelow(Moment(RemoveRecursively(h, w), s), h0, s0, source, force)
    ensures Advances(h0, s0, RemoveRecursively(h, w), s.(lower := RemoveRecursively(s.lower, w)), source, force)
  {
    if !force {
      RemoveKeepsEdits(h0, s0.lower, h, s.lower, source, w);
    }
    RemovalOutsideKept(h0, h, source, w);
    DeletionKeepsView(s0, s, source, w);
    RemoveRecursivelyKeepsShape(h, w);
    RemovalKeepsOrigins(s0.lower, s0.upper, s.lower, source, w);
    RemovalKeepsOrigins(h0, s0.upper, h, source, w);
    RemoveKeepsSame(h0, s0.lower, h, s.lower, source, w);
    AdvancesIsSafe(h0, s0, h, s, source, force);
  }

  lemma RemovalOutsideKept(h0: Tree, h: Tree, source: Path, w: Path)
    requires OutsideKept(h0, h, source) && Below(w, source)
    ensures OutsideKept(h0, RemoveRecursively(h, w), source)
  {
    forall q | Within(q, w) ensures Below(q, source) {
      WithinBelow(q, w, source);
    }
    OutsideKeptTransitive(h0, h, RemoveRecursively(h, w), source);
  }

  /** The env sees below the source what it saw, and the source is still there. */
  lemma DeletionKeepsView(s0: S.State, s: S.State, source: Path, w: Path)
    requires S.Inv(s) && IsDir(s.lower, source) && w in s.gone && Below(w, source)
    requires forall q :: Below(q, source) ==> S.Show(s, q) == S.Show(s0, q)
    ensures var t := s.(lower := RemoveRecursively(s.lower, w));
            && S.Inv(t) && IsDir(t.lower, source)
            && forall q :: Below(q, source) ==> S.Show(t, q) == S.Show(s0, q)
  {
    RemoveFromLowerShows(s, w);
    BelowIsStrict(w, source);
  }

  lemma RemovalKeepsOrigins(t0: Tree, u: Tree, t: Tree, source: Path, w: Path)
    requires Origins(t0, u, t, source)
    ensures Origins(t0, u, RemoveRecursively(t, w), source)
  {
    forall q | Below(q, source) && q in RemoveRecursively(t, w)
      ensures Get(RemoveRecursively(t, w), q) == Get(t0, q) || Get(RemoveRecursively(t, w), q) == Get(u, q)
    {
      assert q in t && Get(RemoveRecursively(t, w), q) == Get(t, q);
    }
  }

  lemma RemoveKeepsSame(h0: Tree, l0: Tree, h: Tree, l: Tree, source: Path, w: Path)
    requires SameKept(h0, l0, h, l, source)
    ensures SameKept(h0, l0, RemoveRecursively(h, w), RemoveRecursively(l, w), source)
  {
    forall p | Below(p, source) && SameSubtree(l0, h0, p)
      ensures SameSubtree(RemoveRecursively(l, w), RemoveRecursively(h, w), p)
    {
      forall q | Within(q, p) ensures Get(RemoveRecursively(l, w), q) == Get(RemoveRecursively(h, w), q) {
        assert Get(l, q) == Get(h, q);
      }
    }
  }

  /** One deletion carried out on the host and in the snapshot. */
  lemma DeletionStep(h0: Tree, s0: S.State, h: Tree, s: S.State, source: Path, force: bool, w: Path)
    requires Progress(h0, s0, h, s, source, force) && S.Inv(s0)
    requires w in s.gone && Below(w, source) && (force || SameSubtree(s.lower, h, w))
    ensures Safe(Moment(RemoveRecursively(h, w), s), h0, s0, source, force)
    ensures Progress(h0, s0, RemoveRecursively(h, w), s.(lower := RemoveRecursively(s.lower, w)), source, force)
  {
    DeletionStepBelow(h0, s0, h, s, source, force, w);
    DeletionStepOutside(s0, s, source, w);
  }

  lemma DeletionStepOutside(s0: S.State, s: S.State, source: Path, w: Path)
    requires OutsideSeen(s, s0, source) && Below(w, source)
    ensures OutsideSeen(s.(lower := RemoveRecursively(s.lower, w)), s0, source)
  {
    forall q | !Below(q, source) ensures !Within(q, w) {
      if Within(q, w) {
        WithinBelow(q, w, source);
      }
    }
  }

  // ----- clearing the layers

  /** Every tree the upper cleanup goes through still shows what the env saw. */
  lemma {:induction false} UpperTraceAdvances(h0: Tree, s0: S.State, h: Tree, s: S.State, source: Path, force: bool,
                                              trees: seq<Tree>, last: Tree, applied: set<Path>, k: nat)
    requires Advances(h0, s0, h, s, source, force) && Trace(trees, s.upper, last, applied) && k < |trees|
    requires forall p :: p in s.upper && Below(p, source) ==> Get(s.lower, p) == Get(s.upper, p)
    requires forall p :: p in applied ==> Below(p, source)
    ensures Advances(h0, s0, h, s.(upper := trees[k]), source, force)
    ensures forall p :: p in trees[k] ==> p in s.upper && trees[k][p] == s.upper[p]
  {
    if k > 0 {
      UpperTraceAdvances(h0, s0, h, s, source, force, trees, last, applied, k - 1);
      assert LeafRemoved(trees[k - 1], trees[(k - 1) + 1], applied);
      var p :| LeafRemovedAt(trees[k - 1], trees[k], applied, p);
      var t := s.(upper := trees[k - 1]);
      DropAppliedUpper(t, p);
      assert t.(upper := t.upper - {p}) == s.(upper := trees[k]);
      forall q | Below(q, source) ensures S.Show(s.(upper := trees[k]), q) == S.Show(s0, q) {
        assert S.Show(t, q) == S.Show(s0, q);
        if q == p {
          assert Get(s.lower, p) == Get(s.upper, p);
        }
      }
    }
  }

  /** Every store the whiteout cleanup goes through still shows what the env saw. */
  lemma {:induction false} WhiteoutTraceAdvances(h0: Tree, s0: S.State, h: Tree, s: S.State, source: Path, force: bool,
                                                 w: Tree, trees: seq<Tree>, last: Tree, applied: set<Path>, k: nat)
    requires Advances(h0, s0, h, s, source, force) && StoreOk(w) && s.gone == WhiteoutSet(w)
    requires Trace(trees, w, last, applied) && k < |trees|
    requires forall p :: p in applied && p in w ==> VisibleFromStorage(w, p) !in s.lower
    ensures StoreOk(trees[k]) && Advances(h0, s0, h, s.(gone := WhiteoutSet(trees[k])), source, force)
    ensures forall p :: p in trees[k] ==> p in w && trees[k][p] == w[p]
    ensures WhiteoutSet(trees[k]) <= s.gone
  {
    if k > 0 {
      WhiteoutTraceAdvances(h0, s0, h, s, source, force, w, trees, last, applied, k - 1);
      assert LeafRemoved(trees[k - 1], trees[(k - 1) + 1], applied);
      var p :| LeafRemovedAt(trees[k - 1], trees[k], applied, p);
      if trees[k - 1][p].Dir? {
        StoreDirRemoved(trees[k - 1], p, trees[k]);
      } else {
        MarkerDropped(h0, s0, h, s, source, force, w, trees[k - 1], trees[k], p);
      }
    }
  }

  lemma MarkerDropped(h0: Tree, s0: S.State, h: Tree, s: S.State, source: Path, force: bool, w: Tree, v: Tree, u: Tree,
                      p: Path)
    requires StoreOk(v) && Advances(h0, s0, h, s.(gone := WhiteoutSet(v)), source, force)
    requires p in v && !v[p].Dir? && u == v - {p}
    requires forall q :: q in v ==> q in w && v[q] == w[q]
    requires VisibleFromStorage(w, p) !in s.lower
    ensures StoreOk(u) && Advances(h0, s0, h, s.(gone := WhiteoutSet(u)), source, force)
    ensures WhiteoutSet(u) <= WhiteoutSet(v)
  {
    assert StoredProperly(v, p);
    var visible := VisibleFromStorage(v, p);
    StorageRoundTrip(v, p);
    MarkerRemoved(v, visible, u);
    assert visible == VisibleFromStorage(w, p);
    var t := s.(gone := WhiteoutSet(v));
    DropAppliedWhiteout(t, visible);
    assert s.(gone := WhiteoutSet(u)) == t.(gone := t.gone - {visible});
  }

  /** What the upper cleanup takes away outside the source are hollow directories only. */
  lemma {:induction false} UpperTraceOutside(s0: S.State, s: S.State, source: Path, trees: seq<Tree>, last: Tree,
                                             applied: set<Path>, k: nat)
    requires OutsideSeen(s, s0, source) && s.upper == s0.upper
    requires Trace(trees, s.upper, last, applied) && k < |trees|
    requires forall p :: p in applied ==> Below(p, source)
    ensures OutsideSeen(s.(upper := trees[k]), s0, source)
    ensures forall p :: p in trees[k] ==> p in s.upper && trees[k][p] == s.upper[p]
    ensures forall p :: p in s.upper && !s.upper[p].Dir? && !Below(p, source) ==> p in trees[k]
  {
    if k > 0 {
      UpperTraceOutside(s0, s, source, trees, last, applied, k - 1);
      assert LeafRemoved(trees[k - 1], trees[(k - 1) + 1], applied);
      var p :| LeafRemovedAt(trees[k - 1], trees[k], applied, p);
      if !Below(p, source) {
        DroppedIsHollow(s.upper, trees[k - 1], source, p);
      }
      DropOutside(s0, s.(upper := trees[k - 1]), source, p);
      assert s.(upper := trees[k - 1]).(upper := trees[k - 1] - {p}) == s.(upper := trees[k]);
    }
  }

  lemma DropOutside(s0: S.State, s: S.State, source: Path, p: Path)
    requires OutsideSeen(s, s0, source) && (Below(p, source) || Hollow(s0.upper, source, p))
    ensures OutsideSeen(s.(upper := s.upper - {p}), s0, source)
  {
  }

  lemma DroppedIsHollow(u: Tree, t: Tree, source: Path, p: Path)
    requires WellFormed(t) && p in t && p != Root && !Below(p, source) && ChildNames(t, p) == {} && t[p].Dir?
    requires forall q :: q in t ==> q in u && t[q] == u[q]
    requires forall q :: q in u && !u[q].Dir? && !Below(q, source) ==> q in t
    ensures Hollow(u, source, p)
  {
    forall q | q in u && Within(q, p) && !u[q].Dir? ensures Below(q, source) {
      if !Below(q, source) {
        ViaSomeChild(t, q, p);
      }
    }
  }

  /** What the whiteout cleanup takes away are marks below the source. */
  lemma {:induction false} WhiteoutTraceOutside(s0: S.State, s: S.State, source: Path, w: Tree, trees: seq<Tree>,
                                                last: Tree, applied: set<Path>, k: nat)
    requires OutsideSeen(s, s0, source) && StoreOk(w) && s.gone == WhiteoutSet(w) && source !in s.gone
    requires Trace(trees, w, last, applied) && k < |trees|
    requires forall p :: p in applied ==> Below(p, source)
    ensures OutsideSeen(s.(gone := WhiteoutSet(trees[k])), s0, source)
    ensures StoreOk(trees[k]) && WhiteoutSet(trees[k]) <= s.gone
  {
    if k > 0 {
      WhiteoutTraceOutside(s0, s, source, w, trees, last, applied, k - 1);
      assert LeafRemoved(trees[k - 1], trees[(k - 1) + 1], applied);
      var p :| LeafRemovedAt(trees[k - 1], trees[k], applied, p);
      var v := trees[k - 1];
      if v[p].Dir? {
        StoreDirRemoved(v, p, trees[k]);
      } else {
        assert StoredProperly(v, p);
        var visible := VisibleFromStorage(v, p);
        StorageRoundTrip(v, p);
        MarkerRemoved(v, visible, trees[k]);
        assert Below(visible, source);
      }
    }
  }

  // ----- when nothing can stand in the way

  /** If the snapshot has the deleted path, and it does not lie below a file or link the env made, nothing in the
      snapshot blocks the deletion; nor on the host, if that had the path as well. */
  lemma DeletionNotBlocked(t0: Tree, s0: S.State, t: Tree, source: Path, w: Path)
    requires WellFormed(t0) && WellFormed(t) && Origins(t0, s0.upper, t, source)
    requires w in s0.gone && w in t0 && Below(w, source) && !StaleWhiteout(s0, source) && IsDir(t, source)
    ensures !Blocked(t, w)
  {
    BlockedMeans(t, w);
    forall a | Below(w, a) && a in t ensures t[a].Dir? {
      WithinComparable(w, a, source);
      if Below(a, source) {
        AncestorsAreDirs(t0, w, a);
        BelowIsStrict(w, a);
      } else {
        AncestorsAreDirs(t, source, a);
      }
    }
  }

  lemma HostSourceStays(h0: Tree, h: Tree, source: Path)
    requires OutsideKept(h0, h, source) && IsDir(h0, source)
    ensures IsDir(h, source)
  {
    if Below(source, source) {
      BelowIsStrict(source, source);
    }
    assert Get(h, source) == Get(h0, source);
  }

  /** The env's own nodes survive its deletions. */
  lemma DeletionSparesUpper(t: Tree, s0: S.State, source: Path, w: Path)
    requires S.Inv(s0) && w in s0.gone
    requires forall v :: v in s0.upper && Below(v, source) ==> Get(t, v) == Get(s0.upper, v)
    ensures forall v :: v in s0.upper && Below(v, source) ==> Get(RemoveRecursively(t, w), v) == Get(s0.upper, v)
  {
    forall v | v in s0.upper && Below(v, source) ensures Get(RemoveRecursively(t, w), v) == Get(s0.upper, v) {
      if Within(v, w) {
        AncestorsAreDirs(s0.upper, v, w);
      }
      assert Get(t, v) == Get(s0.upper, v);
    }
  }

  ghost predicate AllSafe(ms: seq<Moment>, h0: Tree, s0: S.State, source: Path, force: bool) {
    forall m :: m in ms ==> Safe(m, h0, s0, source, force)
  }

  /** A deletion carried out: the path is gone from host and snapshot, nothing the env made was above it,
      and unless forced the host had not changed it. */
  ghost predicate DeletionMade(h: Tree, l: Tree, h0: Tree, s0: S.State, source: Path, force: bool, p: Path) {
    && p !in h && p !in l
    && (forall a :: Below(p, a) && a in s0.upper ==> s0.upper[a].Dir?)
    && (!force ==> SameSubtree(s0.lower, h0, p))
  }

  /** The store's entries in the order they are visited. */
  ghost predicate DeletionOrder(w: Tree, source: Path, es: seq<Path>) {
    && NoDuplicates(es) && ByDepth(es, true)
    && forall q :: q in es <==> q in EntriesUnder(w, source)
  }

  /** The deletions of the first `i` entries have been made. */
  ghost predicate DeletedUpTo(h: Tree, l: Tree, h0: Tree, s0: S.State, w: Tree, source: Path, force: bool,
                              es: seq<Path>, i: nat)
  {
    i <= |es| && forall j :: 0 <= j < i && es[j] in w && w[es[j]].File? ==>
      DeletionMade(h, l, h0, s0, source, force, VisibleFromStorage(w, es[j]))
  }

  /** The upper layer is cleared below the source, and host and snapshot hold what it held. */
  ghost predicate ClearedAt(h: Tree, s: S.State, ms: seq<Moment>, source: Path, force: bool, h0: Tree, s0: S.State) {
    && (forall q :: q in s.upper ==> !Below(q, source) && !Hollow(s0.upper, source, q))
    && s.gone == s0.gone
    && AllSafe(ms, h0, s0, source, force) && Progress(h0, s0, h, s, source, force)
    && HoldsUppers(h, s0, source) && HoldsUppers(s.lower, s0, source)
    && (!force ==> UppersAgreed(h0, s0, source))
  }

  lemma HistoryShows(ms: seq<Moment>, h0: Tree, s0: S.State, source: Path, force: bool)
    requires S.Inv(s0) && AllSafe(ms, h0, s0, source, force)
    ensures HollowsMatch(s0, source) ==> forall m :: m in ms ==> S.View(m.layers) == S.View(s0)
  {
    forall m | m in ms && HollowsMatch(s0, source) ensures S.View(m.layers) == S.View(s0) {
      assert Safe(m, h0, s0, source, force);
      WholeViewKept(m.layers, s0, source);
    }
  }

  /** A commit that went through. */
  ghost predicate Finished(h: Tree, s: S.State, w: Tree, ms: seq<Moment>, source: Path, force: bool, h0: Tree,
                           s0: S.State)
  {
    && (forall q :: Below(q, source) ==> q !in s.upper && q !in w && q !in s.gone)
    && (forall q :: q in s.upper ==> !Hollow(s0.upper, source, q))
    && AllSafe(ms, h0, s0, source, force) && Progress(h0, s0, h, s, source, force)
    && HoldsUppers(h, s0, source)
    && (forall p :: p in s0.gone && Below(p, source) ==> p !in h)
    && (forall p, a :: p in s0.gone && Below(p, source) && Below(p, a) && a in s0.upper ==> s0.upper[a].Dir?)
    && (!force ==> Agreed(h0, s0, source))
  }

  lemma ProgressStarts(h0: Tree, s0: S.State, source: Path, force: bool)
    requires WellFormed(h0) && S.Inv(s0) && IsDir(s0.lower, source) && IsDir(S.View(s0), source)
    ensures Progress(h0, s0, h0, s0, source, force) && Safe(Moment(h0, s0), h0, s0, source, force)
  {
    S.ViewIsShow(s0);
    assert Get(S.View(s0), source) == S.Show(s0, source);
    ProgressIsSafe(h0, s0, h0, s0, source, force);
  }

  /** Having visited the whole store, every deletion below the source has been made. */
  lemma AllDeletionsMade(h: Tree, l: Tree, h0: Tree, s0: S.State, w: Tree, source: Path, force: bool, es: seq<Path>)
    requires StoreOk(w) && s0.gone == WhiteoutSet(w) && DeletionOrder(w, source, es)
    requires DeletedUpTo(h, l, h0, s0, w, source, force, es, |es|)
    ensures forall p :: p in s0.gone && Below(p, source) ==> DeletionMade(h, l, h0, s0, source, force, p)
    ensures forall e :: e in EntriesBelow(w, source) ==> VisibleFromStorage(w, e) !in l
  {
    forall p | p in s0.gone && Below(p, source) ensures DeletionMade(h, l, h0, s0, source, force, p) {
      MarkerRoundTrip(w, p);
      var m := MarkerPath(w, p).value.value;
      assert m in EntriesUnder(w, source);
      assert m in es;
    }
    forall e | e in EntriesBelow(w, source) ensures VisibleFromStorage(w, e) !in l {
      assert StoredProperly(w, e);
      assert e in EntriesUnder(w, source);
      assert e in es;
    }
  }

  lemma AllDeletionsAgreed(h: Tree, l: Tree, h0: Tree, s0: S.State, source: Path, force: bool)
    requires forall p :: p in s0.gone && Below(p, source) ==> DeletionMade(h, l, h0, s0, source, force, p)
    ensures forall p :: p in s0.gone && Below(p, source) ==> p !in h
    ensures forall p, a :: p in s0.gone && Below(p, source) && Below(p, a) && a in s0.upper ==> s0.upper[a].Dir?
    ensures !force && UppersAgreed(h0, s0, source) ==> Agreed(h0, s0, source)
  {
    forall p | p in s0.gone && Below(p, source) && !force ensures SameSubtree(s0.lower, h0, p) {
      assert DeletionMade(h, l, h0, s0, source, force, p);
    }
  }

  /** The moments of a whiteout cleanup. */
  ghost function StoreMoments(h: Tree, s: S.State, trees: seq<Tree>): seq<Moment> {
    seq(|trees|, k requires 0 <= k < |trees| => Moment(h, s.(gone := WhiteoutSet(trees[k]))))
  }

  lemma WhiteoutTraceSafe(h0: Tree, s0: S.State, h: Tree, s: S.State, source: Path, force: bool,
                          w: Tree, trees: seq<Tree>, last: Tree, applied: set<Path>)
    requires S.Inv(s0) && Progress(h0, s0, h, s, source, force) && StoreOk(w) && s.gone == WhiteoutSet(w)
    requires Trace(trees, w, last, applied)
    requires forall p :: p in applied ==> Below(p, source)
    requires forall p :: p in applied && p in w ==> VisibleFromStorage(w, p) !in s.lower
    ensures AllSafe(StoreMoments(h, s, trees), h0, s0, source, force)
    ensures StoreOk(last) && Progress(h0, s0, h, s.(gone := WhiteoutSet(last)), source, force)
  {
    forall m | m in StoreMoments(h, s, trees) ensures Safe(m, h0, s0, source, force) {
      var k :| 0 <= k < |trees| && StoreMoments(h, s, trees)[k] == m;
      WhiteoutTraceProgress(h0, s0, h, s, source, force, w, trees, last, applied, k);
      ProgressIsSafe(h0, s0, h, s.(gone := WhiteoutSet(trees[k])), source, force);
    }
    WhiteoutTraceProgress(h0, s0, h, s, source, force, w, trees, last, applied, |trees| - 1);
  }

  lemma WhiteoutTraceProgress(h0: Tree, s0: S.State, h: Tree, s: S.State, source: Path, force: bool,
                              w: Tree, trees: seq<Tree>, last: Tree, applied: set<Path>, k: nat)
    requires Progress(h0, s0, h, s, source, force) && StoreOk(w) && s.gone == WhiteoutSet(w)
    requires Trace(trees, w, last, applied) && k < |trees|
    requires forall p :: p in applied ==> Below(p, source)
    requires forall p :: p in applied && p in w ==> VisibleFromStorage(w, p) !in s.lower
    ensures StoreOk(trees[k]) && Progress(h0, s0, h, s.(gone := WhiteoutSet(trees[k])), source, force)
  {
    WhiteoutTraceAdvances(h0, s0, h, s, source, force, w, trees, last, applied, k);
    WhiteoutTraceOutside(s0, s, source, w, trees, last, applied, k);
  }

  /** The snapshot has every path that is marked as deleted. */
  ghost predicate DeletionsInLower(s: S.State, source: Path) {
    forall w :: w in s.gone && Below(w, source) ==> w in s.lower
  }

  /** No deletion is marked in vain, and none lies below a file or link the env made. */
  ghost predicate Commitable(s: S.State, source: Path) {
    DeletionsInLower(s, source) && !StaleWhiteout(s, source)
  }

  /** A marker below the source deletes a path below the source; anything else there is a directory. */
  lemma EntryInStore(w: Tree, source: Path, es: seq<Path>, i: nat)
    requires StoreOk(w) && source !in WhiteoutSet(w) && DeletionOrder(w, source, es) && i < |es|
    ensures es[i] in w && (w[es[i]].Dir? || w[es[i]].File?)
    ensures w[es[i]].File? ==> VisibleFromStorage(w, es[i]) in WhiteoutSet(w)
                               && Below(VisibleFromStorage(w, es[i]), source)
  {
    assert es[i] in es;
    assert StoredProperly(w, es[i]);
    if w[es[i]].File? {
      StorageRoundTrip(w, es[i]);
    }
  }

  lemma DeletionSkipped(h: Tree, l: Tree, h0: Tree, s0: S.State, w: Tree, source: Path, force: bool, es: seq<Path>,
                        i: nat)
    requires StoreOk(w) && source !in WhiteoutSet(w) && DeletionOrder(w, source, es) && i < |es|
    requires DeletedUpTo(h, l, h0, s0, w, source, force, es, i)
    requires es[i] in w && (w[es[i]].Dir? || !Within(VisibleFromStorage(w, es[i]), source))
    ensures DeletedUpTo(h, l, h0, s0, w, source, force, es, i + 1)
  {
    EntryInStore(w, source, es, i);
  }

  lemma DeletedStays(h: Tree, l: Tree, h0: Tree, s0: S.State, w: Tree, source: Path, force: bool, es: seq<Path>, i: nat,
                     p: Path)
    requires DeletedUpTo(h, l, h0, s0, w, source, force, es, i) && i < |es| && p == VisibleFromStorage(w, es[i])
    requires DeletionMade(RemoveRecursively(h, p), RemoveRecursively(l, p), h0, s0, source, force, p)
    ensures DeletedUpTo(RemoveRecursively(h, p), RemoveRecursively(l, p), h0, s0, w, source, force, es, i + 1)
  {
    forall j | 0 <= j < i && es[j] in w && w[es[j]].File?
      ensures DeletionMade(RemoveRecursively(h, p), RemoveRecursively(l, p), h0, s0, source, force,
                           VisibleFromStorage(w, es[j]))
    {
      assert DeletionMade(h, l, h0, s0, source, force, VisibleFromStorage(w, es[j]));
    }
  }

  /** A deletion that is not blocked in the snapshot has only directories of the env above it. */
  lemma NothingMadeAbove(s0: S.State, s: S.State, source: Path, p: Path)
    requires S.Inv(s0) && S.Inv(s) && IsDir(s.lower, source) && source !in s0.gone && HoldsUppers(s.lower, s0, source)
    requires Below(p, source) && !Blocked(s.lower, p) && IsDir(S.View(s0), source)
    ensures forall a :: Below(p, a) && a in s0.upper ==> s0.upper[a].Dir?
  {
    BlockedMeans(s.lower, p);
    S.ViewIsShow(s0);
    forall a | Below(p, a) && a in s0.upper ensures s0.upper[a].Dir? {
      WithinComparable(p, a, source);
      if Below(a, source) {
        assert Get(s.lower, a) == Get(s0.upper, a);
      } else {
        AncestorsAreDirs(S.View(s0), source, a);
        assert Get(S.View(s0), a) == S.Show(s0, a);
      }
    }
  }

  /** Everything the env has below the source is in `t`. */
  ghost predicate HoldsUppers(t: Tree, s0: S.State, source: Path) {
    forall v :: v in s0.upper && Below(v, source) ==> Get(t, v) == Get(s0.upper, v)
  }

  lemma HoldsWhenAllApplied(t: Tree, s0: S.State, source: Path, es: seq<Path>)
    requires UpperOrder(s0.upper, source, es) && AppliedTo(t, s0.upper, es, |es|)
    ensures HoldsUppers(t, s0, source)
  {
    forall v | v in s0.upper && Below(v, source) ensures Get(t, v) == Get(s0.upper, v) {
      assert v in EntriesUnder(s0.upper, source);
      assert v in es;
    }
  }

  /** The moments of an upper cleanup. */
  ghost function MomentsOf(h: Tree, s: S.State, trees: seq<Tree>): seq<Moment> {
    seq(|trees|, k requires 0 <= k < |trees| => Moment(h, s.(upper := trees[k])))
  }

  lemma UpperTraceSafe(h0: Tree, s0: S.State, h: Tree, s: S.State, source: Path, force: bool,
                       trees: seq<Tree>, last: Tree, applied: set<Path>)
    requires S.Inv(s0) && Progress(h0, s0, h, s, source, force) && Trace(trees, s.upper, last, applied)
    requires s.upper == s0.upper
    requires forall p :: p in s.upper && Below(p, source) ==> Get(s.lower, p) == Get(s.upper, p)
    requires forall p :: p in applied ==> Below(p, source)
    ensures AllSafe(MomentsOf(h, s, trees), h0, s0, source, force)
    ensures Progress(h0, s0, h, s.(upper := last), source, force)
  {
    forall m | m in MomentsOf(h, s, trees) ensures Safe(m, h0, s0, source, force) {
      var k :| 0 <= k < |trees| && MomentsOf(h, s, trees)[k] == m;
      UpperTraceProgress(h0, s0, h, s, source, force, trees, last, applied, k);
      ProgressIsSafe(h0, s0, h, s.(upper := trees[k]), source, force);
    }
    UpperTraceProgress(h0, s0, h, s, source, force, trees, last, applied, |trees| - 1);
  }

  lemma UpperTraceProgress(h0: Tree, s0: S.State, h: Tree, s: S.State, source: Path, force: bool,
                           trees: seq<Tree>, last: Tree, applied: set<Path>, k: nat)
    requires Progress(h0, s0, h, s, source, force) && Trace(trees, s.upper, last, applied) && k < |trees|
    requires s.upper == s0.upper
    requires forall p :: p in s.upper && Below(p, source) ==> Get(s.lower, p) == Get(s.upper, p)
    requires forall p :: p in applied ==> Below(p, source)
    ensures Progress(h0, s0, h, s.(upper := trees[k]), source, force)
  {
    UpperTraceAdvances(h0, s0, h, s, source, force, trees, last, applied, k);
    UpperTraceOutside(s0, s, source, trees, last, applied, k);
  }

  lemma AllSafeJoins(a: seq<Moment>, b: seq<Moment>, h0: Tree, s0: S.State, source: Path, force: bool)
    requires AllSafe(a, h0, s0, source, force) && AllSafe(b, h0, s0, source, force)
    ensures AllSafe(a + b, h0, s0, source, force)
  {
  }

  /** A cleanup of all entries below the source leaves nothing there. */
  lemma NothingLeftBelow(t: Tree, t0: Tree, source: Path)
    requires WellFormed(t)
    requires forall p :: p in t ==> p in t0 && t[p] == t0[p]
    requires forall p :: p in t && Below(p, source) ==> t[p].Dir?
    requires forall p :: p in t && p.Child? && t[p].Dir? ==> ChildNames(t, p) != {}
    ensures forall q :: q in t ==> !Below(q, source)
  {
    forall q | q in t ensures !Below(q, source) {
      if Below(q, source) {
        NothingLeft(t, source, q);
      }
    }
  }

  /** The state once the upper layer is cleared */
  lemma ClearedUpper(h0: Tree, s0: S.State, h: Tree, s: S.State, ms: seq<Moment>, source: Path, force: bool,
                     trees: seq<Tree>, cleared: Tree)
    requires S.Inv(s0) && Progress(h0, s0, h, s, source, force) && AllSafe(ms, h0, s0, source, force)
    requires s.upper == s0.upper && s.gone == s0.gone && HoldsUppers(h, s0, source) && HoldsUppers(s.lower, s0, source)
    requires !force ==> UppersAgreed(h0, s0, source)
    requires Trace(trees, s.upper, cleared, EntriesUnder(s.upper, source))
    requires forall p :: p in cleared ==> p in s.upper && cleared[p] == s.upper[p]
    requires forall p :: p in EntriesUnder(s.upper, source) && !s.upper[p].Dir? ==> p !in cleared
    requires forall p :: p in cleared && p.Child? && cleared[p].Dir? ==> ChildNames(cleared, p) != {}
    ensures ClearedAt(h, s.(upper := cleared), ms + MomentsOf(h, s, trees), source, force, h0, s0)
  {
    UpperTraceSafe(h0, s0, h, s, source, force, trees, cleared, EntriesUnder(s.upper, source));
    AllSafeJoins(ms, MomentsOf(h, s, trees), h0, s0, source, force);
    NothingLeftBelow(cleared, s.upper, source);
    HollowsDropped(s.upper, cleared, source);
  }

  /** The state once the whiteouts are cleared */
  lemma ClearedWhiteouts(h0: Tree, s0: S.State, h: Tree, s: S.State, w: Tree, ms: seq<Moment>, source: Path,
                         force: bool, es: seq<Path>, trees: seq<Tree>, cleared: Tree)
    requires S.Inv(s0) && ClearedAt(h, s, ms, source, force, h0, s0) && StoreOk(w) && s.gone == WhiteoutSet(w)
    requires DeletionOrder(w, source, es) && DeletedUpTo(h, s.lower, h0, s0, w, source, force, es, |es|)
    requires Trace(trees, w, cleared, EntriesBelow(w, source))
    requires forall p :: p in cleared ==> p in w && cleared[p] == w[p]
    requires forall p :: p in EntriesBelow(w, source) && !w[p].Dir? ==> p !in cleared
    requires forall p :: p in cleared && p.Child? && cleared[p].Dir? ==> ChildNames(cleared, p) != {}
    ensures StoreOk(cleared)
    ensures Finished(h, s.(gone := WhiteoutSet(cleared)), cleared, ms + StoreMoments(h, s, trees), source, force, h0,
                     s0)
  {
    AllDeletionsMade(h, s.lower, h0, s0, w, source, force, es);
    AllDeletionsAgreed(h, s.lower, h0, s0, source, force);
    WhiteoutTraceSafe(h0, s0, h, s, source, force, w, trees, cleared, EntriesBelow(w, source));
    AllSafeJoins(ms, StoreMoments(h, s, trees), h0, s0, source, force);
    NothingLeftBelow(cleared, w, source);
  }

  lemma HollowsDropped(u: Tree, t: Tree, source: Path)
    requires WellFormed(t)
    requires forall p :: p in t ==> p in u && t[p] == u[p] && !Below(p, source)
    requires forall p :: p in t && p.Child? && t[p].Dir? ==> ChildNames(t, p) != {}
    ensures forall p :: p in t ==> !Hollow(u, source, p)
  {
    forall p | p in t && Hollow(u, source, p) ensures false {
      var n :| n in ChildNames(t, p);
      ChildNamesAreChildren(t, p);
      forall q | q in t && Below(q, p) ensures t[q].Dir? && ChildNames(t, q) != {} {
        assert Within(q, p);
      }
      NothingLeft(t, p, Child(p, n));
    }
  }

  /** As a whole the env sees what it saw if every hollow directory is in the snapshot with the same mode, and once
      they are dropped only then. */
  lemma WholeViewKept(s: S.State, s0: S.State, source: Path)
    requires S.Inv(s) && S.Inv(s0) && SameViewBelow(s, s0, source) && OutsideSeen(s, s0, source)
    ensures HollowsMatch(s0, source) ==> S.View(s) == S.View(s0)
    ensures S.View(s) == S.View(s0) && (forall q :: q in s.upper ==> !Hollow(s0.upper, source, q))
            ==> HollowsMatch(s0, source)
  {
    S.ViewIsShow(s);
    S.ViewIsShow(s0);
    if HollowsMatch(s0, source) {
      forall q ensures Get(S.View(s), q) == Get(S.View(s0), q) {
        if !Below(q, source) {
          assert Get(S.View(s), q) == S.Show(s, q);
          assert Get(S.View(s0), q) == S.Show(s0, q);
        }
      }
      TreesEqual(S.View(s), S.View(s0));
    } else if forall q :: q in s.upper ==> !Hollow(s0.upper, source, q) {
      var p :| Hollow(s0.upper, source, p) && Get(s0.lower, p) != Get(s0.upper, p);
      assert Get(S.View(s), p) == S.Show(s, p) == Get(s0.lower, p);
      assert Get(S.View(s0), p) == S.Show(s0, p) == Get(s0.upper, p);
    }
  }

  lemma FinishedShows(h: Tree, s: S.State, w: Tree, ms: seq<Moment>, source: Path, force: bool, h0: Tree, s0: S.State)
    requires S.Inv(s0) && Finished(h, s, w, ms, source, force, h0, s0)
    ensures forall q :: Below(q, source) ==> Get(s.lower, q) == Get(S.View(s0), q)
    ensures forall q :: Below(q, source) && SameSubtree(s0.lower, h0, q) ==> Get(h, q) == Get(S.View(s0), q)
    ensures S.View(s) == S.View(s0) <==> HollowsMatch(s0, source)
    ensures !StaleWhiteout(s0, source)
    ensures !force ==> Agreed(h0, s0, source)
  {
    S.ViewIsShow(s0);
    forall q | Below(q, source) ensures Get(s.lower, q) == Get(S.View(s0), q) {
      assert S.Show(s, q) == S.Show(s0, q);
      assert Get(S.View(s0), q) == S.Show(s0, q);
    }
    forall q | Below(q, source) && SameSubtree(s0.lower, h0, q) ensures Get(h, q) == Get(S.View(s0), q) {
      assert SameSubtree(s.lower, h, q) && Within(q, q);
    }
    ProgressIsSafe(h0, s0, h, s, source, force);
    WholeViewKept(s, s0, source);
  }

  // ----- where no link is in the way

  /** What the steps find above the source on the host they found there at the start. */
  lemma WayIsStraight(h0: Tree, h: Tree, source: Path, v: Path)
    requires OutsideKept(h0, h, source) && Below(v, source)
    requires SourceStraight(h0, source)
    requires forall a :: Below(v, a) && Below(a, source) ==> NoLinkAt(h, a)
    ensures NoLinkAbove(h, v)
  {
    forall a | Below(v, a) && a in h ensures !h[a].Link? {
      if !Below(a, source) {
        WithinComparable(v, a, source);
        assert NoLinkAt(h0, a);
      }
    }
  }

  lemma UpperWayStraight(h0: Tree, s0: S.State, h: Tree, s: S.State, source: Path, force: bool, v: Path)
    requires Progress(h0, s0, h, s, source, force) && SourceStraight(h0, source) && Below(v, source)
    requires WayExists(h, v, source) && WayExists(s.lower, v, source) && IsDir(s.lower, v.parent)
    ensures NoLinkAbove(h, v) && NoLinkAbove(s.lower, v)
  {
    WayIsStraight(h0, h, source, v);
    forall a | Below(v, a) && a in s.lower ensures !s.lower[a].Link? {
      AncestorsAreDirs(s.lower, v.parent, a);
    }
  }

  lemma DeletionWayStraight(h0: Tree, s0: S.State, h: Tree, s: S.State, source: Path, force: bool, w: Path)
    requires Progress(h0, s0, h, s, source, force) && Straight(h0, s0, source) && w in s0.gone && Below(w, source)
    ensures NoLinkAbove(h, w) && NoLinkAbove(s.lower, w)
  {
    forall a | Below(w, a) && Below(a, source) ensures NoLinkAt(h, a) && NoLinkAt(s.lower, a) {
      assert NoLinkAt(h0, a) && NoLinkAt(s0.lower, a) && NoLinkAt(s0.upper, a);
      assert a in h ==> Get(h, a) == Get(h0, a) || Get(h, a) == Get(s0.upper, a);
      assert a in s.lower ==> Get(s.lower, a) == Get(s0.lower, a) || Get(s.lower, a) == Get(s0.upper, a);
    }
    WayIsStraight(h0, h, source, w);
    forall a | Below(w, a) && a in s.lower ensures !s.lower[a].Link? {
      if !Below(a, source) {
        WithinComparable(w, a, source);
        AncestorsAreDirs(s.lower, source, a);
      }
    }
  }

  /** The check of `p` itself */
  function CheckedHere(l: Tree, h: Tree, p: Path, force: bool): Reply<()>
    requires WellFormed(l) && WellFormed(h)
  {
    EnsureNoHostConflict(Disk(h, l), Place(InSnapshot, p), Place(OnHost, p), force)
  }

  lemma CheckedHereMeans(l: Tree, h: Tree, p: Path, force: bool)
    requires WellFormed(l) && WellFormed(h)
    ensures CheckedHere(l, h, p, force).Ok? <==> force || (!Blocked(l, p) && !Blocked(h, p) && SameSubtree(l, h, p))
    ensures CheckedHere(l, h, p, force) == Err(Conflict) <==>
            !force && !Blocked(l, p) && !Blocked(h, p) && !SameSubtree(l, h, p)
    ensures CheckedHere(l, h, p, force).Err? ==> CheckedHere(l, h, p, force).errno in {Conflict, NotADirectory}
  {
    EnsureNoHostConflictMeans(Disk(h, l), Place(InSnapshot, p), Place(OnHost, p), force);
    SameBelowIsSameSubtree(l, h, p);
  }

  /** The deletion of `p` itself: refused, broken off after the host, or complete */
  ghost predicate DeletedHere(o: Outcome, h: Tree, s: S.State, p: Path, checked: Reply<()>) {
    var h1, l1 := RemoveRecursively(h, p), RemoveRecursively(s.lower, p);
    && (o.r.Ok? <==> checked.Ok? && !Blocked(h, p) && !Blocked(s.lower, p))
    && (o.r.Err? ==> o.r == if checked.Err? then checked else Err(NotADirectory))
    && (o.r.Ok? ==> o == Outcome(Ok(()), h1, s.(lower := l1), [Moment(h1, s), Moment(h1, s.(lower := l1))]))
    && (o.r.Err? ==> o.moments == [] || (checked.Ok? && o.moments == [Moment(h1, s)]))
  }

  /** Where no link is above a path, the step acts at the path itself. */
  lemma DeleteOneStraight(h: Tree, s: S.State, f: Follow, p: Path, force: bool)
    requires WellFormed(h) && WellFormed(s.lower) && p.Child? && NoLinkAbove(h, p) && NoLinkAbove(s.lower, p)
    ensures DeletedHere(DeleteOne(h, s, f, p, force), h, s, p, CheckedHere(s.lower, h, p, force))
  {
    var k := Disk(h, s.lower);
    RealIsSelf(k, f, OnHost, p);
    RealIsSelf(k, f, InSnapshot, p);
    RemoveAtMeans(k, Place(OnHost, p));
    var k1 := Without(k, Place(OnHost, p));
    RealIsSelf(k1, f, InSnapshot, p);
    RemoveAtMeans(k1, Place(InSnapshot, p));
  }

  /** The moments of a node applied at `v` itself, first to the host and then to the snapshot */
  function MomentsHere(h: Tree, s: S.State, v: Path): seq<Moment>
    requires v.Child? && v in s.upper && ApplyUpperPath(s.upper[v], h, v).Ok?
             && ApplyUpperPath(s.upper[v], s.lower, v).Ok?
  {
    var n := s.upper[v];
    var h1, l1 := ApplyUpperPath(n, h, v).value, ApplyUpperPath(n, s.lower, v).value;
    [Moment(Cleared(n, h, v), s), Moment(Made(n, h, v), s), Moment(h1, s)] +
    [Moment(h1, s.(lower := Cleared(n, s.lower, v))), Moment(h1, s.(lower := Made(n, s.lower, v))),
     Moment(h1, s.(lower := l1))]
  }

  /** The application of the node at `v` itself: refused or complete */
  ghost predicate AppliedHere(o: Outcome, h: Tree, s: S.State, v: Path, checked: Reply<()>)
    requires v.Child? && v in s.upper
  {
    var onHost, inLower := ApplyUpperPath(s.upper[v], h, v), ApplyUpperPath(s.upper[v], s.lower, v);
    && (o.r.Ok? ==> checked.Ok? && onHost.Ok? && inLower.Ok?
                    && o == Outcome(Ok(()), onHost.value, s.(lower := inLower.value), MomentsHere(h, s, v)))
    && (checked.Ok? && onHost.Ok? && Get(h, v) == Get(s.lower, v) ==> o.r.Ok?)
    && (o.r.Err? ==> o.moments == [])
    && (o.r == Err(Conflict) <==> checked == Err(Conflict))
  }

  lemma ApplyOneStraight(h: Tree, s: S.State, f: Follow, v: Path, force: bool)
    requires WellFormed(h) && WellFormed(s.lower) && v.Child? && v in s.upper && NoLinkAbove(h, v)
             && NoLinkAbove(s.lower, v)
    requires S.Inv(s) && ApplyUpperPath(s.upper[v], s.lower, v).Ok?
    ensures AppliedHere(ApplyOne(h, s, f, v, force), h, s, v, CheckedHere(s.lower, h, v, force))
  {
    var k := Disk(h, s.lower);
    RealIsSelf(k, f, OnHost, v);
    RealIsSelf(k, f, InSnapshot, v);
    assert v in s.lower && s.lower[v].Link? ==> !s.upper[v].Dir?;
    ApplyUpperPathEffect(s.upper[v], h, v);
    var onHost := ApplyAt(s.upper[v], k, f, Place(OnHost, v));
    if onHost.Ok? {
      RealIsSelf(onHost.value.done, f, InSnapshot, v);
    }
  }

  // ----- all upper entries

  /** The first `i` upper entries are on the host and in the snapshot, and nothing has been lost. */
  ghost predicate UppersDone(h: Tree, s: S.State, ms: seq<Moment>, source: Path, force: bool, es: seq<Path>, i: nat,
                             h0: Tree, s0: S.State)
  {
    && s.upper == s0.upper && s.gone == s0.gone && UpperOrder(s.upper, source, es)
    && AllSafe(ms, h0, s0, source, force) && Progress(h0, s0, h, s, source, force)
    && AppliedTo(h, s.upper, es, i) && AppliedTo(s.lower, s.upper, es, i)
    && (!force ==> forall j :: 0 <= j < i ==> SameSubtree(s0.lower, h0, es[j]))
  }

  /** Nothing stands above an entry of the env in the snapshot, nor on a host that agreed with it there. */
  lemma UpperEntryReachable(h0: Tree, s0: S.State, h: Tree, s: S.State, source: Path, force: bool, v: Path)
    requires Progress(h0, s0, h, s, source, force) && Below(v, source) && IsDir(s.lower, v.parent)
    requires v.parent != source ==> IsDir(h, v.parent)
    ensures !Blocked(s.lower, v)
    ensures IsDir(h0, source) ==> !Blocked(h, v)
    ensures SameSubtree(s0.lower, h0, v) ==> SameSubtree(s.lower, h, v) && Get(h, v) == Get(s.lower, v)
  {
    if IsDir(h0, source) {
      HostSourceStays(h0, h, source);
    }
    if SameSubtree(s0.lower, h0, v) {
      assert SameSubtree(s.lower, h, v) && Within(v, v);
    }
  }

  /** A moment between two steps, when only the host is about to change */
  lemma HostMomentSafe(h0: Tree, s0: S.State, h: Tree, s: S.State, source: Path, force: bool, v: Path, x: Tree)
    requires Progress(h0, s0, h, s, source, force) && S.Inv(s0) && Below(v, source)
    requires StaysInside(h, x, v, source) && (force || SameSubtree(s.lower, h, v))
    ensures Safe(Moment(x, s), h0, s0, source, force)
  {
    ProgressIsSafe(h0, s0, h, s, source, force);
    OutsideKeptTransitive(h0, h, x, source);
    if !force {
      forall q | Below(q, source) && Get(h0, q) != Get(s0.lower, q) ensures Get(x, q) == Get(h0, q) {
        assert Get(h, q) == Get(h0, q);
        assert Within(q, v) ==> Get(s.lower, q) == Get(h, q);
      }
    }
  }

  /** The same when only the snapshot is */
  lemma LowerMomentSafe(h0: Tree, s0: S.State, h: Tree, s: S.State, source: Path, force: bool, v: Path, l: Tree)
    requires S.Inv(s0) && Safe(Moment(h, s), h0, s0, source, force) && Below(v, source) && SameInSight(s, l, v)
    ensures Safe(Moment(h, s.(lower := l)), h0, s0, source, force)
  {
    var t := s.(lower := l);
    S.ViewIsShow(s);
    S.ViewIsShow(t);
    forall q | Below(q, source) ensures Get(S.View(t), q) == Get(S.View(s0), q) {
      assert Get(S.View(t), q) == S.Show(t, q) == S.Show(s, q) == Get(S.View(s), q);
    }
    forall q | !Below(q, source) ensures Get(l, q) == Get(s.lower, q) {
      if Within(q, v) {
        WithinBelow(q, v, source);
      }
    }
  }

  /** Every moment of an upper node being applied is safe. */
  lemma MomentsHereSafe(h0: Tree, s0: S.State, h: Tree, s: S.State, source: Path, force: bool, v: Path)
    requires Progress(h0, s0, h, s, source, force) && S.Inv(s0) && s.upper == s0.upper
    requires Below(v, source) && v in s.upper && (force || SameSubtree(s.lower, h, v))
    requires WayExists(h, v, source) && WayExists(s.lower, v, source) && IsDir(s.lower, v.parent)
    requires ApplyUpperPath(s.upper[v], h, v).Ok?
    ensures ApplyUpperPath(s.upper[v], s.lower, v).Ok?
    ensures AllSafe(MomentsHere(h, s, v), h0, s0, source, force)
  {
    var n := s.upper[v];
    UpperStep(h0, s0, h, s, source, force, v);
    var h1, l1 := ApplyUpperPath(n, h, v).value, ApplyUpperPath(n, s.lower, v).value;
    ProgressIsSafe(h0, s0, h1, s.(lower := l1), source, force);
    HostMomentsSafe(h0, s0, h, s, source, force, v, h1);
    LowerMomentsSafe(h0, s0, h1, s, source, force, v, l1);
    AllSafeJoins([Moment(Cleared(n, h, v), s), Moment(Made(n, h, v), s), Moment(h1, s)],
                 [Moment(h1, s.(lower := Cleared(n, s.lower, v))), Moment(h1, s.(lower := Made(n, s.lower, v))),
                  Moment(h1, s.(lower := l1))], h0, s0, source, force);
  }

  lemma HostMomentsSafe(h0: Tree, s0: S.State, h: Tree, s: S.State, source: Path, force: bool, v: Path, h1: Tree)
    requires Progress(h0, s0, h, s, source, force) && S.Inv(s0)
    requires Below(v, source) && v in s.upper && (force || SameSubtree(s.lower, h, v))
    requires WayExists(h, v, source) && ApplyUpperPath(s.upper[v], h, v) == Ok(h1)
    requires Safe(Moment(h1, s), h0, s0, source, force)
    ensures AllSafe([Moment(Cleared(s.upper[v], h, v), s), Moment(Made(s.upper[v], h, v), s), Moment(h1, s)],
                    h0, s0, source, force)
  {
    OnTheWayStaysInside(s.upper[v], h, v, source);
    HostMomentSafe(h0, s0, h, s, source, force, v, Cleared(s.upper[v], h, v));
    HostMomentSafe(h0, s0, h, s, source, force, v, Made(s.upper[v], h, v));
  }

  lemma LowerMomentsSafe(h0: Tree, s0: S.State, h: Tree, s: S.State, source: Path, force: bool, v: Path, l1: Tree)
    requires S.Inv(s0) && S.Inv(s) && Below(v, source) && v in s.upper && IsDir(s.lower, v.parent)
    requires Safe(Moment(h, s), h0, s0, source, force) && Safe(Moment(h, s.(lower := l1)), h0, s0, source, force)
    ensures AllSafe([Moment(h, s.(lower := Cleared(s.upper[v], s.lower, v))),
                     Moment(h, s.(lower := Made(s.upper[v], s.lower, v))), Moment(h, s.(lower := l1))],
                    h0, s0, source, force)
  {
    LowerOnTheWayShows(s, v);
    LowerMomentSafe(h0, s0, h, s, source, force, v, Cleared(s.upper[v], s.lower, v));
    LowerMomentSafe(h0, s0, h, s, source, force, v, Made(s.upper[v], s.lower, v));
  }

  /** Everything the next upper entry can lead to. */
  lemma UpperEntryOutcome(h0: Tree, s0: S.State, h: Tree, s: S.State, source: Path, force: bool, es: seq<Path>, i: nat)
    requires S.Inv(s0) && Progress(h0, s0, h, s, source, force) && s.upper == s0.upper
    requires UpperOrder(s.upper, source, es) && i < |es| && AppliedTo(h, s.upper, es, i)
             && AppliedTo(s.lower, s.upper, es, i)
    ensures Below(es[i], source) && es[i] in s.upper && ApplyUpperPath(s.upper[es[i]], s.lower, es[i]).Ok?
    ensures WayExists(h, es[i], source) && WayExists(s.lower, es[i], source) && IsDir(s.lower, es[i].parent)
    ensures IsDir(h0, source) && SameSubtree(s0.lower, h0, es[i]) ==>
              CheckedHere(s.lower, h, es[i], force).Ok? && ApplyUpperPath(s.upper[es[i]], h, es[i]).Ok?
              && Get(h, es[i]) == Get(s.lower, es[i])
    ensures CheckedHere(s.lower, h, es[i], force) == Err(Conflict) ==> !force && !SameSubtree(s0.lower, h0, es[i])
    ensures IsDir(h0, source) && !force && !SameSubtree(s0.lower, h0, es[i]) ==>
              CheckedHere(s.lower, h, es[i], force) == Err(Conflict)
    ensures CheckedHere(s.lower, h, es[i], force).Ok? && !force ==> SameSubtree(s0.lower, h0, es[i])
    ensures CheckedHere(s.lower, h, es[i], force).Ok? && ApplyUpperPath(s.upper[es[i]], h, es[i]).Ok? ==>
              var h1 := ApplyUpperPath(s.upper[es[i]], h, es[i]).value;
              var s1 := s.(lower := ApplyUpperPath(s.upper[es[i]], s.lower, es[i]).value);
              && AllSafe(MomentsHere(h, s, es[i]), h0, s0, source, force)
              && Progress(h0, s0, h1, s1, source, force)
              && AppliedTo(h1, s.upper, es, i + 1) && AppliedTo(s1.lower, s.upper, es, i + 1)
  {
    var v := es[i];
    WayApplied(s.lower, s.upper, source, es, i);
    WayAppliedBelow(h, s.upper, source, es, i);
    UpperEntryReachable(h0, s0, h, s, source, force, v);
    CheckedHereMeans(s.lower, h, v, force);
    ApplyUpperPathEffect(s.upper[v], h, v);
    ApplyUpperPathEffect(s.upper[v], s.lower, v);
    if CheckedHere(s.lower, h, v, force).Ok? {
      if !force {
        EditsWouldShow(h0, s0.lower, h, s.lower, source, v);
      }
      if ApplyUpperPath(s.upper[v], h, v).Ok? {
        UpperStep(h0, s0, h, s, source, force, v);
        AppliedStays(h, s.upper, source, es, i);
        AppliedStays(s.lower, s.upper, source, es, i);
        MomentsHereSafe(h0, s0, h, s, source, force, v);
      }
    }
  }

  lemma AllSafeGrows(ms: seq<Moment>, a: Moment, b: Moment, h0: Tree, s0: S.State, source: Path, force: bool)
    requires AllSafe(ms, h0, s0, source, force) && Safe(a, h0, s0, source, force) && Safe(b, h0, s0, source, force)
    ensures AllSafe(ms + [a, b], h0, s0, source, force)
  {
  }

  lemma NextUpperSafe(h: Tree, s: S.State, f: Follow, ms: seq<Moment>, source: Path, force: bool, es: seq<Path>, i: nat,
                      h0: Tree, s0: S.State)
    requires S.Inv(s0) && SourceStraight(h0, source) && UppersDone(h, s, ms, source, force, es, i, h0, s0) && i < |es|
    ensures Below(es[i], source) && es[i] in s.upper && s.upper == s0.upper
    ensures var o := ApplyOne(h, s, f, es[i], force);
            && (o.r.Err? ==> o.moments == [])
            && (o.r.Ok? ==> UppersDone(o.host, o.s, ms + o.moments, source, force, es, i + 1, h0, s0))
            && (IsDir(h0, source) && SameSubtree(s0.lower, h0, es[i]) ==> o.r.Ok?)
            && Refuses(o, force, h0, s0, source, es[i])
  {
    UpperEntryOutcome(h0, s0, h, s, source, force, es, i);
    UpperWayStraight(h0, s0, h, s, source, force, es[i]);
    ApplyOneStraight(h, s, f, es[i], force);
    var o := ApplyOne(h, s, f, es[i], force);
    if o.r.Ok? {
      AllSafeJoins(ms, MomentsHere(h, s, es[i]), h0, s0, source, force);
    }
  }

  /** An entry is refused as in conflict only if unforced and its subtree differed, and on a host that has the source
      always then. */
  ghost predicate Refuses(o: Outcome, force: bool, h0: Tree, s0: S.State, source: Path, v: Path) {
    && (o.r == Err(Conflict) ==> !force && !SameSubtree(s0.lower, h0, v))
    && (IsDir(h0, source) && !force && !SameSubtree(s0.lower, h0, v) ==> o.r == Err(Conflict))
  }

  /** What the upper entries lead to, complete or broken off */
  ghost predicate UppersEnd(o: Outcome, ms: seq<Moment>, source: Path, force: bool, es: seq<Path>, h0: Tree,
                            s0: S.State)
  {
    && AllSafe(ms + o.moments, h0, s0, source, force)
    && (o.r.Ok? ==> UppersDone(o.host, o.s, ms + o.moments, source, force, es, |es|, h0, s0))
    && (IsDir(h0, source) && UppersAgreed(h0, s0, source) ==> o.r.Ok?)
    && (o.r == Err(Conflict) ==> !force && !UppersAgreed(h0, s0, source))
    && (IsDir(h0, source) && !force && o.r.Err? ==> o.r == Err(Conflict))
  }

  lemma UppersEndThen(first: Outcome, rest: Outcome, ms: seq<Moment>, source: Path, force: bool, es: seq<Path>,
                      h0: Tree, s0: S.State)
    requires UppersEnd(rest, ms + first.moments, source, force, es, h0, s0)
    ensures UppersEnd(After(first.moments, rest), ms, source, force, es, h0, s0)
  {
    assert ms + first.moments + rest.moments == ms + (first.moments + rest.moments);
  }

  lemma UppersEndEarly(first: Outcome, ms: seq<Moment>, source: Path, force: bool, es: seq<Path>, v: Path, h0: Tree,
                       s0: S.State)
    requires AllSafe(ms, h0, s0, source, force) && first.r.Err? && first.moments == []
    requires Below(v, source) && v in s0.upper && !(IsDir(h0, source) && SameSubtree(s0.lower, h0, v))
    requires Refuses(first, force, h0, s0, source, v)
    ensures UppersEnd(first, ms, source, force, es, h0, s0)
  {
    assert ms + [] == ms;
  }

  /** The upper entries, one after the other, from the `i`-th on */
  lemma {:induction false} UppersSafe(h: Tree, s: S.State, f: Follow, ms: seq<Moment>, source: Path, force: bool,
                                      es: seq<Path>, i: nat, h0: Tree, s0: S.State)
    requires S.Inv(s0) && SourceStraight(h0, source) && UppersDone(h, s, ms, source, force, es, i, h0, s0)
    requires forall v :: v in es[i..] ==> v.Child? && v in s.upper
    ensures UppersEnd(ApplyEach(h, s, f, es[i..], force), ms, source, force, es, h0, s0)
    decreases |es| - i
  {
    if i < |es| {
      NextUpperSafe(h, s, f, ms, source, force, es, i, h0, s0);
      var first := ApplyOne(h, s, f, es[i], force);
      assert es[i..][1..] == es[i + 1..] && es[i..][0] == es[i];
      if first.r.Ok? {
        UppersSafe(first.host, first.s, f, ms + first.moments, source, force, es, i + 1, h0, s0);
        UppersEndThen(first, ApplyEach(first.host, first.s, f, es[i + 1..], force), ms, source, force, es, h0, s0);
      } else {
        UppersEndEarly(first, ms, source, force, es, es[i], h0, s0);
      }
    } else {
      assert es[i..] == [] && ms + [] == ms;
    }
  }

  // ----- all deletions

  /** The first `i` entries of the store have been dealt with, and nothing has been lost. */
  ghost predicate DeletionsDone(h: Tree, s: S.State, ms: seq<Moment>, w: Tree, source: Path, force: bool, es: seq<Path>,
                                i: nat, h0: Tree, s0: S.State)
  {
    && StoreOk(w) && s0.gone == WhiteoutSet(w) && ClearedAt(h, s, ms, source, force, h0, s0)
    && DeletionOrder(w, source, es) && DeletedUpTo(h, s.lower, h0, s0, w, source, force, es, i)
  }

  /** A deletion whose subtree agreed at the start is no conflict, and passes where none is marked in vain. */
  lemma DeletionPasses(h0: Tree, s0: S.State, h: Tree, s: S.State, source: Path, force: bool, p: Path)
    requires WellFormed(h0) && S.Inv(s0) && Progress(h0, s0, h, s, source, force)
    requires p in s0.gone && Below(p, source) && SameSubtree(s0.lower, h0, p)
    ensures CheckedHere(s.lower, h, p, force) != Err(Conflict)
    ensures IsDir(h0, source) && Commitable(s0, source) ==>
              CheckedHere(s.lower, h, p, force).Ok? && !Blocked(h, p) && !Blocked(s.lower, p)
  {
    assert SameSubtree(s.lower, h, p);
    CheckedHereMeans(s.lower, h, p, force);
    if IsDir(h0, source) && Commitable(s0, source) {
      HostSourceStays(h0, h, source);
      assert Get(s0.lower, p) == Get(h0, p);
      DeletionNotBlocked(h0, s0, h, source, p);
      DeletionNotBlocked(s0.lower, s0, s.lower, source, p);
    }
  }

  /** A deletion whose subtree did not agree is a conflict, if it is within reach. */
  lemma DeletionRefusedHere(h0: Tree, s0: S.State, h: Tree, s: S.State, source: Path, force: bool, p: Path)
    requires WellFormed(h0) && S.Inv(s0) && Progress(h0, s0, h, s, source, force) && IsDir(h0, source)
    requires p in s0.gone && Below(p, source) && Commitable(s0, source) && DeletionsInReach(h0, s0, source) && !force
    ensures CheckedHere(s.lower, h, p, force).Err? ==> CheckedHere(s.lower, h, p, force) == Err(Conflict)
    ensures !Blocked(h, p) && !Blocked(s.lower, p)
  {
    HostSourceStays(h0, h, source);
    DeletionStaysInReach(h0, s0, h, source, p);
    DeletionNotBlocked(s0.lower, s0, s.lower, source, p);
    CheckedHereMeans(s.lower, h, p, force);
  }

  lemma DeletionStaysInReach(h0: Tree, s0: S.State, h: Tree, source: Path, p: Path)
    requires WellFormed(h) && Origins(h0, s0.upper, h, source) && IsDir(h, source)
    requires p in s0.gone && Below(p, source) && !StaleWhiteout(s0, source) && DeletionsInReach(h0, s0, source)
    ensures !Blocked(h, p)
  {
    BlockedMeans(h, p);
    forall a | Below(p, a) && a in h ensures h[a].Dir? {
      WithinComparable(p, a, source);
      if Below(a, source) {
        assert Get(h, a) == Get(h0, a) || Get(h, a) == Get(s0.upper, a);
      } else {
        AncestorsAreDirs(h, source, a);
      }
    }
  }

  lemma DeletionKeeps(h0: Tree, s0: S.State, h: Tree, s: S.State, source: Path, force: bool, p: Path)
    requires S.Inv(s0) && Progress(h0, s0, h, s, source, force) && s.gone == s0.gone
    requires p in s.gone && Below(p, source) && IsDir(S.View(s0), source)
    requires HoldsUppers(h, s0, source) && HoldsUppers(s.lower, s0, source) && (force || SameSubtree(s.lower, h, p))
    ensures var h1 := RemoveRecursively(h, p);
            var s1 := s.(lower := RemoveRecursively(s.lower, p));
            && Safe(Moment(h1, s), h0, s0, source, force) && Safe(Moment(h1, s1), h0, s0, source, force)
            && Progress(h0, s0, h1, s1, source, force)
            && HoldsUppers(h1, s0, source) && HoldsUppers(s1.lower, s0, source)
            && (!Blocked(s.lower, p) ==> DeletionMade(h1, s1.lower, h0, s0, source, force, p))
  {
    DeletionStep(h0, s0, h, s, source, force, p);
    ProgressIsSafe(h0, s0, RemoveRecursively(h, p), s.(lower := RemoveRecursively(s.lower, p)), source, force);
    DeletionSparesUpper(h, s0, source, p);
    DeletionSparesUpper(s.lower, s0, source, p);
    if !force {
      EditsWouldShow(h0, s0.lower, h, s.lower, source, p);
    }
    if !Blocked(s.lower, p) {
      NothingMadeAbove(s0, s, source, p);
    }
  }

  /** The history after one deletion the check let through, complete or broken off after the host */
  lemma DeletionHistory(ms: seq<Moment>, h0: Tree, s0: S.State, h: Tree, s: S.State, source: Path, force: bool, p: Path)
    requires S.Inv(s0) && ClearedAt(h, s, ms, source, force, h0, s0)
    requires p in s.gone && Below(p, source) && IsDir(S.View(s0), source) && (force || SameSubtree(s.lower, h, p))
    ensures var h1, s1 := RemoveRecursively(h, p), s.(lower := RemoveRecursively(s.lower, p));
            && AllSafe(ms + [Moment(h1, s)], h0, s0, source, force)
            && ClearedAt(h1, s1, ms + [Moment(h1, s), Moment(h1, s1)], source, force, h0, s0)
            && (!Blocked(s.lower, p) ==> DeletionMade(h1, s1.lower, h0, s0, source, force, p))
  {
    DeletionKeeps(h0, s0, h, s, source, force, p);
    var h1, s1 := RemoveRecursively(h, p), s.(lower := RemoveRecursively(s.lower, p));
    ClearedGrows(ms, h0, s0, h, s, h1, s1, source, force);
  }

  /** What is safe to do next keeps the cleared state. */
  lemma ClearedGrows(ms: seq<Moment>, h0: Tree, s0: S.State, h: Tree, s: S.State, h1: Tree, s1: S.State, source: Path,
                     force: bool)
    requires ClearedAt(h, s, ms, source, force, h0, s0) && s1 == s.(lower := s1.lower)
    requires Safe(Moment(h1, s), h0, s0, source, force) && Safe(Moment(h1, s1), h0, s0, source, force)
    requires Progress(h0, s0, h1, s1, source, force) && HoldsUppers(h1, s0, source) && HoldsUppers(s1.lower, s0, source)
    ensures AllSafe(ms + [Moment(h1, s)], h0, s0, source, force)
    ensures ClearedAt(h1, s1, ms + [Moment(h1, s), Moment(h1, s1)], source, force, h0, s0)
  {
    AllSafeJoins(ms, [Moment(h1, s)], h0, s0, source, force);
    AllSafeGrows(ms, Moment(h1, s), Moment(h1, s1), h0, s0, source, force);
  }

  /** What the deletions lead to, complete or broken off */
  ghost predicate DeletionsEnd(o: Outcome, ms: seq<Moment>, w: Tree, source: Path, force: bool, es: seq<Path>, i: nat,
                               h0: Tree, s0: S.State)
  {
    && AllSafe(ms + o.moments, h0, s0, source, force)
    && (o.r.Ok? ==> DeletionsDone(o.host, o.s, ms + o.moments, w, source, force, es, i, h0, s0))
    && (Agreed(h0, s0, source) || force ==> o.r != Err(Conflict))
    && (IsDir(h0, source) && Agreed(h0, s0, source) && Commitable(s0, source) ==> o.r.Ok?)
    && DeletionRefused(o, source, force, h0, s0)
  }

  /** Deletions fail by a conflict or by a file in the way, and where all are within reach only by a conflict. */
  ghost predicate DeletionRefused(o: Outcome, source: Path, force: bool, h0: Tree, s0: S.State) {
    && (o.r.Err? ==> o.r.errno in {Conflict, NotADirectory})
    && (IsDir(h0, source) && Commitable(s0, source) && DeletionsInReach(h0, s0, source) && !force && o.r.Err? ==>
          o.r == Err(Conflict))
  }

  lemma DeletionsEndThen(first: Outcome, rest: Outcome, ms: seq<Moment>, w: Tree, source: Path, force: bool,
                         es: seq<Path>, i: nat, h0: Tree, s0: S.State)
    requires DeletionsEnd(first, ms, w, source, force, es, i, h0, s0)
    requires first.r.Ok? ==> DeletionsEnd(rest, ms + first.moments, w, source, force, es, |es|, h0, s0)
    ensures DeletionsEnd(if first.r.Err? then first else After(first.moments, rest), ms, w, source, force, es, |es|, h0,
                         s0)
  {
    assert ms + first.moments + rest.moments == ms + (first.moments + rest.moments);
  }

  /** One deletion that may be complete, broken off after the host, or refused */
  ghost predicate DeletionEnd(o: Outcome, h: Tree, s: S.State, ms: seq<Moment>, source: Path, force: bool, p: Path,
                              h0: Tree, s0: S.State)
  {
    && AllSafe(ms + o.moments, h0, s0, source, force)
    && (o.r.Ok? ==> ClearedAt(o.host, o.s, ms + o.moments, source, force, h0, s0))
    && (o.r.Ok? ==> o.host == RemoveRecursively(h, p) && o.s.lower == RemoveRecursively(s.lower, p))
    && (o.r.Ok? ==> DeletionMade(o.host, o.s.lower, h0, s0, source, force, p))
    && (SameSubtree(s0.lower, h0, p) || force ==> o.r != Err(Conflict))
    && (IsDir(h0, source) && SameSubtree(s0.lower, h0, p) && Commitable(s0, source) ==> o.r.Ok?)
    && DeletionRefused(o, source, force, h0, s0)
  }

  /** One deletion, with what it keeps. */
  lemma DeletionSafe(o: Outcome, h: Tree, s: S.State, ms: seq<Moment>, source: Path, force: bool, p: Path, h0: Tree,
                     s0: S.State)
    requires WellFormed(h0) && S.Inv(s0) && IsDir(S.View(s0), source)
    requires ClearedAt(h, s, ms, source, force, h0, s0) && p in s.gone && Below(p, source)
    requires DeletedHere(o, h, s, p, CheckedHere(s.lower, h, p, force))
    ensures DeletionEnd(o, h, s, ms, source, force, p, h0, s0)
  {
    var checked := CheckedHere(s.lower, h, p, force);
    if SameSubtree(s0.lower, h0, p) {
      DeletionPasses(h0, s0, h, s, source, force, p);
    }
    CheckedHereMeans(s.lower, h, p, force);
    if IsDir(h0, source) && Commitable(s0, source) && DeletionsInReach(h0, s0, source) && !force {
      DeletionRefusedHere(h0, s0, h, s, source, force, p);
    }
    if checked.Ok? {
      DeletionHistory(ms, h0, s0, h, s, source, force, p);
    }
    DeletionEnds(o, h, s, ms, source, force, p, h0, s0, checked);
  }

  lemma DeletionEnds(o: Outcome, h: Tree, s: S.State, ms: seq<Moment>, source: Path, force: bool, p: Path, h0: Tree,
                     s0: S.State, checked: Reply<()>)
    requires DeletedHere(o, h, s, p, checked) && AllSafe(ms, h0, s0, source, force)
    requires SameSubtree(s0.lower, h0, p) || force ==> checked != Err(Conflict)
    requires checked.Err? ==> checked.errno in {Conflict, NotADirectory}
    requires IsDir(h0, source) && Commitable(s0, source) && DeletionsInReach(h0, s0, source) && !force ==>
               !Blocked(h, p) && !Blocked(s.lower, p) && (checked.Err? ==> checked == Err(Conflict))
    requires IsDir(h0, source) && SameSubtree(s0.lower, h0, p) && Commitable(s0, source) ==>
               checked.Ok? && !Blocked(h, p) && !Blocked(s.lower, p)
    requires checked.Ok? ==>
               var h1, s1 := RemoveRecursively(h, p), s.(lower := RemoveRecursively(s.lower, p));
               && AllSafe(ms + [Moment(h1, s)], h0, s0, source, force)
               && ClearedAt(h1, s1, ms + [Moment(h1, s), Moment(h1, s1)], source, force, h0, s0)
               && (!Blocked(s.lower, p) ==> DeletionMade(h1, s1.lower, h0, s0, source, force, p))
    ensures DeletionEnd(o, h, s, ms, source, force, p, h0, s0)
  {
    assert ms + [] == ms;
  }

  /** The same for the next entry of the store. */
  lemma NextDeletionSafe(o: Outcome, h: Tree, s: S.State, ms: seq<Moment>, w: Tree, source: Path, force: bool,
                         es: seq<Path>, i: nat, h0: Tree, s0: S.State)
    requires DeletionsDone(h, s, ms, w, source, force, es, i, h0, s0) && i < |es| && !PassedOver(w, source, es[i])
    requires VisibleFromStorage(w, es[i]) in s0.gone
    requires DeletionEnd(o, h, s, ms, source, force, VisibleFromStorage(w, es[i]), h0, s0)
    ensures DeletionsEnd(o, ms, w, source, force, es, i + 1, h0, s0)
  {
    if o.r.Ok? {
      DeletedStays(h, s.lower, h0, s0, w, source, force, es, i, VisibleFromStorage(w, es[i]));
    }
  }

  /** The entry that is not passed over marks a path as deleted. */
  lemma NextIsMarked(h: Tree, s: S.State, ms: seq<Moment>, w: Tree, source: Path, force: bool, es: seq<Path>, i: nat,
                     h0: Tree, s0: S.State)
    requires DeletionsDone(h, s, ms, w, source, force, es, i, h0, s0) && i < |es| && !PassedOver(w, source, es[i])
    ensures VisibleFromStorage(w, es[i]) in s0.gone && VisibleFromStorage(w, es[i]) in s.gone
    ensures Below(VisibleFromStorage(w, es[i]), source)
  {
    EntryInStore(w, source, es, i);
  }

  lemma NextIsSkipped(h: Tree, s: S.State, ms: seq<Moment>, w: Tree, source: Path, force: bool, es: seq<Path>, i: nat,
                      h0: Tree, s0: S.State)
    requires DeletionsDone(h, s, ms, w, source, force, es, i, h0, s0) && i < |es| && PassedOver(w, source, es[i])
    ensures DeletionsDone(h, s, ms, w, source, force, es, i + 1, h0, s0)
  {
    EntryInStore(w, source, es, i);
    DeletionSkipped(h, s.lower, h0, s0, w, source, force, es, i);
  }

  /** The next deletion, at the path itself as no link is in the way */
  lemma NextDeletion(h: Tree, s: S.State, f: Follow, ms: seq<Moment>, w: Tree, source: Path, force: bool,
                     es: seq<Path>, i: nat, h0: Tree, s0: S.State)
    requires WellFormed(h0) && S.Inv(s0) && IsDir(S.View(s0), source) && Straight(h0, s0, source)
    requires DeletionsDone(h, s, ms, w, source, force, es, i, h0, s0) && i < |es| && !PassedOver(w, source, es[i])
    ensures DeletionsEnd(DeleteOne(h, s, f, VisibleFromStorage(w, es[i]), force), ms, w, source, force, es, i + 1, h0,
                         s0)
  {
    NextIsMarked(h, s, ms, w, source, force, es, i, h0, s0);
    var p := VisibleFromStorage(w, es[i]);
    DeletionWayStraight(h0, s0, h, s, source, force, p);
    DeleteOneStraight(h, s, f, p, force);
    DeletionSafe(DeleteOne(h, s, f, p, force), h, s, ms, source, force, p, h0, s0);
    NextDeletionSafe(DeleteOne(h, s, f, p, force), h, s, ms, w, source, force, es, i, h0, s0);
  }

  lemma ApplyEachFrom(h: Tree, s: S.State, f: Follow, es: seq<Path>, i: nat, force: bool)
    requires WellFormed(h) && WellFormed(s.lower) && i <= |es| && forall v :: v in es ==> v.Child? && v in s.upper
    ensures i == |es| ==> ApplyEach(h, s, f, es[i..], force) == Outcome(Ok(()), h, s, [])
    ensures i < |es| ==>
              var first := ApplyOne(h, s, f, es[i], force);
              ApplyEach(h, s, f, es[i..], force) ==
                if first.r.Err? then first
                else After(first.moments, ApplyEach(first.host, first.s, f, es[i + 1..], force))
  {
    if i < |es| {
      assert es[i..][1..] == es[i + 1..] && es[i..][0] == es[i];
    }
  }

  /** One more upper entry: what all of them make is what it and the remaining ones make. */
  lemma ApplyEachOn(h: Tree, s: S.State, f: Follow, es: seq<Path>, i: nat, force: bool, made: seq<Moment>,
                    whole: Outcome, first: Outcome)
    requires WellFormed(h) && WellFormed(s.lower) && i < |es| && forall v :: v in es ==> v.Child? && v in s.upper
    requires whole == After(made, ApplyEach(h, s, f, es[i..], force)) && first == ApplyOne(h, s, f, es[i], force)
    ensures WellFormed(first.host) && WellFormed(first.s.lower) && first.s.upper == s.upper
    ensures whole == if first.r.Err? then After(made, first)
                     else After(made + first.moments, ApplyEach(first.host, first.s, f, es[i + 1..], force))
  {
    ApplyEachFrom(h, s, f, es, i, force);
    AfterAfter(made, first.moments, ApplyEach(first.host, first.s, f, es[i + 1..], force));
  }

  /** The same for a deletion. */
  lemma DeleteEachOn(h: Tree, s: S.State, f: Follow, w: Tree, source: Path, es: seq<Path>, i: nat, force: bool,
                     made: seq<Moment>, whole: Outcome, first: Outcome)
    requires WellFormed(h) && WellFormed(s.lower) && i < |es| && !PassedOver(w, source, es[i])
    requires whole == After(made, DeleteEach(h, s, f, w, source, es[i..], force))
    requires first == DeleteOne(h, s, f, VisibleFromStorage(w, es[i]), force)
    ensures WellFormed(first.host) && WellFormed(first.s.lower)
    ensures whole == if first.r.Err? then After(made, first)
                     else After(made + first.moments, DeleteEach(first.host, first.s, f, w, source, es[i + 1..], force))
  {
    DeleteEachFrom(h, s, f, w, source, es, i, force);
    AfterAfter(made, first.moments, DeleteEach(first.host, first.s, f, w, source, es[i + 1..], force));
  }

  lemma DeleteEachFrom(h: Tree, s: S.State, f: Follow, w: Tree, source: Path, es: seq<Path>, i: nat, force: bool)
    requires WellFormed(h) && WellFormed(s.lower) && i <= |es|
    ensures i == |es| ==> DeleteEach(h, s, f, w, source, es[i..], force) == Outcome(Ok(()), h, s, [])
    ensures i < |es| && PassedOver(w, source, es[i]) ==>
              DeleteEach(h, s, f, w, source, es[i..], force) == DeleteEach(h, s, f, w, source, es[i + 1..], force)
    ensures i < |es| && !PassedOver(w, source, es[i]) ==>
              var first := DeleteOne(h, s, f, VisibleFromStorage(w, es[i]), force);
              DeleteEach(h, s, f, w, source, es[i..], force) ==
                if first.r.Err? then first
                else After(first.moments, DeleteEach(first.host, first.s, f, w, source, es[i + 1..], force))
  {
    if i < |es| {
      assert es[i..][1..] == es[i + 1..] && es[i..][0] == es[i];
    }
  }

  lemma DeletionsNoneLeft(h: Tree, s: S.State, f: Follow, ms: seq<Moment>, w: Tree, source: Path, force: bool,
                          es: seq<Path>, h0: Tree, s0: S.State)
    requires WellFormed(h) && WellFormed(s.lower) && DeletionsDone(h, s, ms, w, source, force, es, |es|, h0, s0)
    ensures DeletionsEnd(DeleteEach(h, s, f, w, source, es[|es|..], force), ms, w, source, force, es, |es|, h0, s0)
  {
    DeleteEachFrom(h, s, f, w, source, es, |es|, force);
    assert ms + [] == ms;
  }

  lemma DeletionsSkip(h: Tree, s: S.State, f: Follow, ms: seq<Moment>, w: Tree, source: Path, force: bool,
                      es: seq<Path>, i: nat, h0: Tree, s0: S.State)
    requires WellFormed(h) && WellFormed(s.lower) && i < |es| && PassedOver(w, source, es[i])
    requires DeletionsEnd(DeleteEach(h, s, f, w, source, es[i + 1..], force), ms, w, source, force, es, |es|, h0, s0)
    ensures DeletionsEnd(DeleteEach(h, s, f, w, source, es[i..], force), ms, w, source, force, es, |es|, h0, s0)
  {
    DeleteEachFrom(h, s, f, w, source, es, i, force);
  }

  lemma DeletionsGoOn(h: Tree, s: S.State, f: Follow, ms: seq<Moment>, w: Tree, source: Path, force: bool,
                      es: seq<Path>, i: nat, h0: Tree, s0: S.State, first: Outcome)
    requires WellFormed(h) && WellFormed(s.lower) && i < |es| && !PassedOver(w, source, es[i])
    requires first == DeleteOne(h, s, f, VisibleFromStorage(w, es[i]), force)
    requires DeletionsEnd(first, ms, w, source, force, es, i + 1, h0, s0)
    requires first.r.Ok? ==>
               DeletionsEnd(DeleteEach(first.host, first.s, f, w, source, es[i + 1..], force), ms + first.moments, w,
                            source, force, es, |es|, h0, s0)
    ensures DeletionsEnd(DeleteEach(h, s, f, w, source, es[i..], force), ms, w, source, force, es, |es|, h0, s0)
  {
    DeleteEachFrom(h, s, f, w, source, es, i, force);
    var rest := DeleteEach(first.host, first.s, f, w, source, es[i + 1..], force);
    DeletionsEndThen(first, rest, ms, w, source, force, es, i + 1, h0, s0);
  }

  /** The next entry has been dealt with if all is well. */
  lemma DoneIsSound(h: Tree, s: S.State, ms: seq<Moment>, w: Tree, source: Path, force: bool, es: seq<Path>, i: nat,
                    h0: Tree, s0: S.State)
    requires DeletionsDone(h, s, ms, w, source, force, es, i, h0, s0)
    ensures WellFormed(h) && WellFormed(s.lower) && i <= |es|
  {
  }

  /** The deletions, one after the other, from the `i`-th entry on */
  lemma {:induction false} DeletionsSafe(h: Tree, s: S.State, f: Follow, ms: seq<Moment>, w: Tree, source: Path,
                                         force: bool, es: seq<Path>, i: nat, h0: Tree, s0: S.State)
    requires WellFormed(h0) && S.Inv(s0) && IsDir(S.View(s0), source) && Straight(h0, s0, source)
    requires WellFormed(h) && WellFormed(s.lower) && DeletionsDone(h, s, ms, w, source, force, es, i, h0, s0)
    ensures DeletionsEnd(DeleteEach(h, s, f, w, source, es[i..], force), ms, w, source, force, es, |es|, h0, s0)
    decreases |es| - i
  {
    DoneIsSound(h, s, ms, w, source, force, es, i, h0, s0);
    if i == |es| {
      DeletionsNoneLeft(h, s, f, ms, w, source, force, es, h0, s0);
    } else if PassedOver(w, source, es[i]) {
      NextIsSkipped(h, s, ms, w, source, force, es, i, h0, s0);
      DeletionsSafe(h, s, f, ms, w, source, force, es, i + 1, h0, s0);
      DeletionsSkip(h, s, f, ms, w, source, force, es, i, h0, s0);
    } else {
      NextDeletion(h, s, f, ms, w, source, force, es, i, h0, s0);
      var first := DeleteOne(h, s, f, VisibleFromStorage(w, es[i]), force);
      if first.r.Ok? {
        DeletionsSafe(first.host, first.s, f, ms + first.moments, w, source, force, es, i + 1, h0, s0);
      }
      DeletionsGoOn(h, s, f, ms, w, source, force, es, i, h0, s0, first);
    }
  }
}

/** What a commit does where a symbolic link of the host lies above a deleted path. */
module CommitThroughLinks {
  import opened Replies
  import opened Trees
  import opened WhiteoutStore
  import opened TreeComparison
  import opened PathLookup
  import opened StorageCleanup
  import opened CommitSteps
  import opened CommitSafety
  import opened HostCommit
  import S = OverlayState

  /** On the host, what differed from the snapshot at the start is as it was. */
  ghost predicate HostEditsKept(h0: Tree, l0: Tree, h: Tree, source: Path) {
    forall q :: Below(q, source) && Get(h0, q) != Get(l0, q) ==> Get(h, q) == Get(h0, q)
  }

  /** The place is on the host, and an edit lies at or below it. */
  ghost predicate EditAt(h0: Tree, l0: Tree, h: Tree, source: Path, place: Place) {
    place.side.OnHost? && exists q :: Below(q, source) && Within(q, place.path) && q in h && Get(h0, q) != Get(l0, q)
  }

  /** What the path of the host stands for */
  function FirstPlace(h: Tree, s: S.State, f: Follow, p: Path): Place {
    Real(Disk(h, s.lower), f, OnHost, p)
  }

  /** What the path of the snapshot stands for once the first place is empty */
  function SecondPlace(h: Tree, s: S.State, f: Follow, p: Path): Place {
    Real(Without(Disk(h, s.lower), FirstPlace(h, s, f, p)), f, InSnapshot, p)
  }

  /** The check finds the same at both places. */
  ghost predicate CheckPasses(h: Tree, s: S.State, f: Follow, p: Path) {
    var k := Disk(h, s.lower);
    Passes(k, Real(k, f, InSnapshot, p), FirstPlace(h, s, f, p))
  }

  /** The deletion comes about and meets an edit: where the path of the host leads, or where the path of the
      snapshot does, if that is on the host. */
  ghost predicate MeetsEdit(h0: Tree, l0: Tree, h: Tree, s: S.State, f: Follow, source: Path, p: Path) {
    && CheckPasses(h, s, f, p)
    && (EditAt(h0, l0, h, source, FirstPlace(h, s, f, p)) || EditAt(h0, l0, h, source, SecondPlace(h, s, f, p)))
  }

  /** What two removals leave on the host */
  lemma HostWithout(k: Disk, a: Place, b: Place)
    ensures forall q :: Get(Without(Without(k, a), b).host, q) ==
              if (a.side.OnHost? && Within(q, a.path)) || (b.side.OnHost? && Within(q, b.path)) then None
                  else Get(k.host, q)
  {
  }

  /** Nothing lies behind what is no directory. */
  lemma NothingToRemove(t: Tree, p: Path)
    requires WellFormed(t) && Blocked(t, p)
    ensures RemoveRecursively(t, p) == t
  {
    BlockedMeans(t, p);
    forall q | q in t ensures !Within(q, p) {
      if Within(q, p) {
        AncestorsAreDirs(t, q, p);
      }
    }
  }

  /** One deletion without `force`, for any links: it takes away what it finds at the two places, exactly if the
      check finds the same there. */
  lemma DeletionTakesAway(h: Tree, s: S.State, f: Follow, p: Path)
    requires WellFormed(h) && WellFormed(s.lower) && p.Child?
    ensures var o, k1 := DeleteOne(h, s, f, p, false), Without(Disk(h, s.lower), FirstPlace(h, s, f, p));
            var second := SecondPlace(h, s, f, p);
            && (o.r.Ok? <==> CheckPasses(h, s, f, p) && !Blocked(k1.On(second.side), second.path))
            && Disk(o.host, o.s.lower) == if CheckPasses(h, s, f, p) then Without(k1, second) else Disk(h, s.lower)
  {
    var k := Disk(h, s.lower);
    var first, second := FirstPlace(h, s, f, p), SecondPlace(h, s, f, p);
    EnsureNoHostConflictMeans(k, Real(k, f, InSnapshot, p), first, false);
    RemoveAtMeans(k, first);
    var k1 := Without(k, first);
    RemoveAtMeans(k1, second);
    if Blocked(k1.On(second.side), second.path) {
      NothingToRemove(k1.On(second.side), second.path);
    }
  }

  /** So an edit is lost exactly if there is one at either place. */
  lemma DeletionLosesExactly(h0: Tree, l0: Tree, h: Tree, s: S.State, f: Follow, source: Path, p: Path)
    requires WellFormed(h) && WellFormed(s.lower) && p.Child? && HostEditsKept(h0, l0, h, source)
    ensures HostEditsKept(h0, l0, DeleteOne(h, s, f, p, false).host, source) <==> !MeetsEdit(h0, l0, h, s, f, source, p)
  {
    var k, first, second := Disk(h, s.lower), FirstPlace(h, s, f, p), SecondPlace(h, s, f, p);
    DeletionTakesAway(h, s, f, p);
    HostWithout(k, first, second);
    KeptWithout(h0, l0, h, Without(Without(k, first), second).host, source, first, second);
  }

  lemma KeptWithout(h0: Tree, l0: Tree, h: Tree, u: Tree, source: Path, a: Place, b: Place)
    requires HostEditsKept(h0, l0, h, source)
    requires forall q :: Get(u, q) ==
               if (a.side.OnHost? && Within(q, a.path)) || (b.side.OnHost? && Within(q, b.path)) then None
                   else Get(h, q)
    ensures HostEditsKept(h0, l0, u, source) <==> !EditAt(h0, l0, h, source, a) && !EditAt(h0, l0, h, source, b)
  {
    forall c | (c == a || c == b) && EditAt(h0, l0, h, source, c) ensures !HostEditsKept(h0, l0, u, source) {
      var q :| Below(q, source) && Within(q, c.path) && q in h && Get(h0, q) != Get(l0, q);
      assert Get(u, q) == None && Get(h, q) == Get(h0, q);
    }
    if !EditAt(h0, l0, h, source, a) && !EditAt(h0, l0, h, source, b) {
      forall q | Below(q, source) && Get(h0, q) != Get(l0, q) ensures Get(u, q) == Get(h0, q) {
        assert Get(h, q) == Get(h0, q);
      }
    }
  }

  // ----- all deletions

  /** The deletion of the `i`-th entry comes about and meets an edit. */
  ghost predicate LosesAt(h0: Tree, l0: Tree, h: Tree, s: S.State, f: Follow, w: Tree, source: Path, es: seq<Path>,
                          i: nat)
    requires WellFormed(h) && WellFormed(s.lower) && i < |es|
  {
    var o := DeleteEach(h, s, f, w, source, es[..i], false);
    && o.r.Ok? && !PassedOver(w, source, es[i])
    && MeetsEdit(h0, l0, o.host, o.s, f, source, VisibleFromStorage(w, es[i]))
  }

  ghost predicate SomeLoses(h0: Tree, l0: Tree, h: Tree, s: S.State, f: Follow, w: Tree, source: Path, es: seq<Path>)
    requires WellFormed(h) && WellFormed(s.lower)
  {
    exists i | 0 <= i < |es| :: LosesAt(h0, l0, h, s, f, w, source, es, i)
  }

  lemma AtFirst(h0: Tree, l0: Tree, h: Tree, s: S.State, f: Follow, w: Tree, source: Path, es: seq<Path>)
    requires WellFormed(h) && WellFormed(s.lower) && es != []
    ensures LosesAt(h0, l0, h, s, f, w, source, es, 0) <==>
            !PassedOver(w, source, es[0]) && MeetsEdit(h0, l0, h, s, f, source, VisibleFromStorage(w, es[0]))
  {
    assert es[..0] == [];
  }

  /** What comes after the first entry is what the remaining ones do from where it leads. */
  lemma AtLater(h0: Tree, l0: Tree, h: Tree, s: S.State, f: Follow, w: Tree, source: Path, es: seq<Path>, i: nat)
    requires WellFormed(h) && WellFormed(s.lower) && 1 <= i < |es|
    ensures PassedOver(w, source, es[0]) ==>
              (LosesAt(h0, l0, h, s, f, w, source, es, i) <==> LosesAt(h0, l0, h, s, f, w, source, es[1..], i - 1))
    ensures !PassedOver(w, source, es[0]) ==>
              var first := DeleteOne(h, s, f, VisibleFromStorage(w, es[0]), false);
              (LosesAt(h0, l0, h, s, f, w, source, es, i) <==>
               first.r.Ok? && LosesAt(h0, l0, first.host, first.s, f, w, source, es[1..], i - 1))
  {
    assert es[..i][1..] == es[1..][..i - 1] && es[..i][0] == es[0] && es[i] == es[1..][i - 1];
  }

  lemma SomePassedOver(h0: Tree, l0: Tree, h: Tree, s: S.State, f: Follow, w: Tree, source: Path, es: seq<Path>,
                       later: seq<Path>)
    requires WellFormed(h) && WellFormed(s.lower) && es != [] && PassedOver(w, source, es[0]) && later == es[1..]
    ensures SomeLoses(h0, l0, h, s, f, w, source, es) <==> SomeLoses(h0, l0, h, s, f, w, source, later)
  {
    forall i | 1 <= i < |es|
      ensures LosesAt(h0, l0, h, s, f, w, source, es, i) <==> LosesAt(h0, l0, h, s, f, w, source, later, i - 1)
    {
      AtLater(h0, l0, h, s, f, w, source, es, i);
    }
    AtFirst(h0, l0, h, s, f, w, source, es);
    forall i | 0 <= i < |later|
      ensures LosesAt(h0, l0, h, s, f, w, source, es, i + 1) <==> LosesAt(h0, l0, h, s, f, w, source, later, i)
    {
    }
  }

  lemma SomeAfterFirst(h0: Tree, l0: Tree, h: Tree, s: S.State, f: Follow, w: Tree, source: Path, es: seq<Path>,
                       first: Outcome)
    requires WellFormed(h) && WellFormed(s.lower) && es != [] && !PassedOver(w, source, es[0])
    requires first == DeleteOne(h, s, f, VisibleFromStorage(w, es[0]), false)
             && SomeLoses(h0, l0, h, s, f, w, source, es)
    ensures LosesAt(h0, l0, h, s, f, w, source, es, 0)
            || (first.r.Ok? && SomeLoses(h0, l0, first.host, first.s, f, w, source, es[1..]))
  {
    var i :| 0 <= i < |es| && LosesAt(h0, l0, h, s, f, w, source, es, i);
    if i > 0 {
      AtLater(h0, l0, h, s, f, w, source, es, i);
    }
  }

  lemma LaterLoses(h0: Tree, l0: Tree, h: Tree, s: S.State, f: Follow, w: Tree, source: Path, es: seq<Path>,
                   first: Outcome, i: nat)
    requires WellFormed(h) && WellFormed(s.lower) && 1 <= i < |es| && !PassedOver(w, source, es[0])
    requires first == DeleteOne(h, s, f, VisibleFromStorage(w, es[0]), false) && first.r.Ok?
    requires LosesAt(h0, l0, first.host, first.s, f, w, source, es[1..], i - 1)
    ensures SomeLoses(h0, l0, h, s, f, w, source, es)
  {
    AtLater(h0, l0, h, s, f, w, source, es, i);
  }

  lemma SomeOrFirst(h0: Tree, l0: Tree, h: Tree, s: S.State, f: Follow, w: Tree, source: Path, es: seq<Path>,
                    first: Outcome, later: seq<Path>)
    requires WellFormed(h) && WellFormed(s.lower) && es != [] && !PassedOver(w, source, es[0]) && later == es[1..]
    requires first == DeleteOne(h, s, f, VisibleFromStorage(w, es[0]), false)
    ensures SomeLoses(h0, l0, h, s, f, w, source, es) <==>
            LosesAt(h0, l0, h, s, f, w, source, es, 0)
            || (first.r.Ok? && SomeLoses(h0, l0, first.host, first.s, f, w, source, later))
  {
    if SomeLoses(h0, l0, h, s, f, w, source, es) {
      SomeAfterFirst(h0, l0, h, s, f, w, source, es, first);
    } else if first.r.Ok? {
      forall i | 0 <= i < |later| ensures !LosesAt(h0, l0, first.host, first.s, f, w, source, later, i) {
        if LosesAt(h0, l0, first.host, first.s, f, w, source, later, i) {
          LaterLoses(h0, l0, h, s, f, w, source, es, first, i + 1);
        }
      }
    }
  }

  /** Without `force`, the deletions lose an edit exactly if one of them comes about and meets one. */
  lemma {:induction false} DeletionsLoseExactly(h0: Tree, l0: Tree, h: Tree, s: S.State, f: Follow, w: Tree,
                                                source: Path, es: seq<Path>)
    requires WellFormed(h) && WellFormed(s.lower) && HostEditsKept(h0, l0, h, source)
    ensures HostEditsKept(h0, l0, DeleteEach(h, s, f, w, source, es, false).host, source) <==>
            !SomeLoses(h0, l0, h, s, f, w, source, es)
    decreases |es|
  {
    if es != [] {
      if PassedOver(w, source, es[0]) {
        DeletionsLoseExactly(h0, l0, h, s, f, w, source, es[1..]);
        SomePassedOver(h0, l0, h, s, f, w, source, es, es[1..]);
      } else {
        var p := VisibleFromStorage(w, es[0]);
        DeletionLosesExactly(h0, l0, h, s, f, source, p);
        AtFirst(h0, l0, h, s, f, w, source, es);
        var first := DeleteOne(h, s, f, p, false);
        SomeOrFirst(h0, l0, h, s, f, w, source, es, first, es[1..]);
        if first.r.Ok? {
          if HostEditsKept(h0, l0, first.host, source) {
            DeletionsLoseExactly(h0, l0, first.host, first.s, f, w, source, es[1..]);
          } else {
            OnlyTakenAway(h, s, f, p);
            LostStaysLost(h0, l0, h, first, f, w, source, es[1..]);
          }
        }
      }
    }
  }

  lemma LostStaysLost(h0: Tree, l0: Tree, h: Tree, first: Outcome, f: Follow, w: Tree, source: Path, es: seq<Path>)
    requires WellFormed(first.host) && WellFormed(first.s.lower)
    requires HostEditsKept(h0, l0, h, source) && !HostEditsKept(h0, l0, first.host, source)
    requires forall q :: q in first.host ==> Get(first.host, q) == Get(h, q)
    ensures !HostEditsKept(h0, l0, DeleteEach(first.host, first.s, f, w, source, es, false).host, source)
  {
    var q :| Below(q, source) && Get(h0, q) != Get(l0, q) && Get(first.host, q) != Get(h0, q);
    assert Get(h, q) == Get(h0, q);
    assert q !in first.host && q in h0;
    DeletionsBringNothingBack(first.host, first.s, f, w, source, es, q);
  }

  lemma OnlyTakenAway(h: Tree, s: S.State, f: Follow, p: Path)
    requires WellFormed(h) && WellFormed(s.lower) && p.Child?
    ensures var o := DeleteOne(h, s, f, p, false);
            forall q :: q in o.host ==> Get(o.host, q) == Get(h, q)
  {
    DeletionTakesAway(h, s, f, p);
    HostWithout(Disk(h, s.lower), FirstPlace(h, s, f, p), SecondPlace(h, s, f, p));
  }

  lemma {:induction false} DeletionsBringNothingBack(h: Tree, s: S.State, f: Follow, w: Tree, source: Path,
                                                     es: seq<Path>, q: Path)
    requires WellFormed(h) && WellFormed(s.lower) && q !in h
    ensures q !in DeleteEach(h, s, f, w, source, es, false).host
    decreases |es|
  {
    if es != [] {
      if PassedOver(w, source, es[0]) {
        DeletionsBringNothingBack(h, s, f, w, source, es[1..], q);
      } else {
        var p := VisibleFromStorage(w, es[0]);
        var first := DeleteOne(h, s, f, p, false);
        OnlyTakenAway(h, s, f, p);
        assert q in first.host ==> Get(first.host, q) == Get(h, q);
        if first.r.Ok? {
          DeletionsBringNothingBack(first.host, first.s, f, w, source, es[1..], q);
        }
      }
    }
  }

  // ----- a whole commit

  /** Without `force`, and with no link on the way to the source, the upper entries lose no edit whatever links are
      below it; and the commit as a whole loses one exactly if one of its deletions comes about and meets one. */
  lemma CommitLosesExactly(r: Reply<()>, h: Tree, l: Tree, h0: Tree, s0: S.State, f: Follow, u: Tree, w: Tree,
                           source: Path, us: seq<Path>, ws: seq<Path>)
    requires WellFormed(h0) && S.Inv(s0) && IsDir(s0.lower, source) && IsDir(S.View(s0), source)
    requires SourceStraight(h0, source) && WrittenBack(r, h, l, h0, s0, f, u, w, source, false, us, ws)
    ensures var applied := ApplyEach(h0, s0, f, us, false);
            && HostEditsKept(h0, s0.lower, applied.host, source)
            && (HostEditsKept(h0, s0.lower, h, source) <==>
                applied.r.Err? || !SomeLoses(h0, s0.lower, applied.host, applied.s.(upper := u), f, w, source, ws))
  {
    UppersKeepEdits(h0, s0, f, source, us);
    var applied := ApplyEach(h0, s0, f, us, false);
    if applied.r.Ok? {
      DeletionsLoseExactly(h0, s0.lower, applied.host, applied.s.(upper := u), f, w, source, ws);
    }
  }

  function LastHost(h: Tree, ms: seq<Moment>): Tree {
    if ms == [] then h else ms[|ms| - 1].host
  }

  lemma OneEndsAtItsLastMoment(h: Tree, s: S.State, f: Follow, v: Path, force: bool)
    requires WellFormed(h) && WellFormed(s.lower) && v.Child? && v in s.upper
    ensures var o := ApplyOne(h, s, f, v, force);
            o.host == LastHost(h, o.moments)
  {
  }

  lemma LastOfBoth(h: Tree, a: seq<Moment>, b: seq<Moment>)
    ensures LastHost(h, a + b) == LastHost(LastHost(h, a), b)
  {
    assert b == [] ==> a + b == a;
  }

  lemma {:induction false} LastMomentIsTheEnd(h: Tree, s: S.State, f: Follow, es: seq<Path>, i: nat, force: bool)
    requires WellFormed(h) && WellFormed(s.lower) && i <= |es| && forall v :: v in es ==> v.Child? && v in s.upper
    ensures var o := ApplyEach(h, s, f, es[i..], force);
            o.host == LastHost(h, o.moments)
    decreases |es| - i
  {
    ApplyEachFrom(h, s, f, es, i, force);
    if i < |es| {
      var first := ApplyOne(h, s, f, es[i], force);
      OneEndsAtItsLastMoment(h, s, f, es[i], force);
      if first.r.Ok? {
        LastMomentIsTheEnd(first.host, first.s, f, es, i + 1, force);
        LastOfBoth(h, first.moments, ApplyEach(first.host, first.s, f, es[i + 1..], force).moments);
      }
    }
  }

  lemma UppersKeepEdits(h0: Tree, s0: S.State, f: Follow, source: Path, us: seq<Path>)
    requires WellFormed(h0) && S.Inv(s0) && IsDir(s0.lower, source) && IsDir(S.View(s0), source)
    requires SourceStraight(h0, source) && UpperOrder(s0.upper, source, us)
    ensures forall v :: v in us ==> v.Child? && v in s0.upper
    ensures HostEditsKept(h0, s0.lower, ApplyEach(h0, s0, f, us, false).host, source)
  {
    UppersCommitted(h0, s0, f, source, false, us);
    assert us[0..] == us;
    LastMomentIsTheEnd(h0, s0, f, us, 0, false);
    SafeToTheEnd(ApplyEach(h0, s0, f, us, false), h0, s0, source);
  }

  lemma SafeToTheEnd(o: Outcome, h0: Tree, s0: S.State, source: Path)
    requires AllSafe([Moment(h0, s0)] + o.moments, h0, s0, source, false) && o.host == LastHost(h0, o.moments)
    ensures HostEditsKept(h0, s0.lower, o.host, source)
  {
    var ms := [Moment(h0, s0)] + o.moments;
    assert ms[|ms| - 1] in ms && ms[|ms| - 1].host == o.host;
    assert Safe(ms[|ms| - 1], h0, s0, source, false);
  }

  // ----- a directory moved away behind a link

  /** The only deletion of a store that marks one path */
  lemma {:induction false} OnlyDeletion(h: Tree, s: S.State, f: Follow, w: Tree, source: Path, es: seq<Path>, m: Path)
    requires WellFormed(h) && WellFormed(s.lower) && NoDuplicates(es) && m in es && !PassedOver(w, source, m)
    requires forall e :: e in es && e != m ==> PassedOver(w, source, e)
    ensures var o, one := DeleteEach(h, s, f, w, source, es, false), DeleteOne(h, s, f, VisibleFromStorage(w, m),
                                                                               false);
            o.r == one.r && o.host == one.host
    decreases |es|
  {
    if es[0] == m {
      var one := DeleteOne(h, s, f, VisibleFromStorage(w, m), false);
      assert forall e :: e in es[1..] ==> e != m;
      if one.r.Ok? {
        AllPassedOver(one.host, one.s, f, w, source, es[1..]);
      }
    } else {
      OnlyDeletion(h, s, f, w, source, es[1..], m);
    }
  }

  lemma {:induction false} AllPassedOver(h: Tree, s: S.State, f: Follow, w: Tree, source: Path, es: seq<Path>)
    requires WellFormed(h) && WellFormed(s.lower) && forall e :: e in es ==> PassedOver(w, source, e)
    ensures DeleteEach(h, s, f, w, source, es, false) == Outcome(Ok(()), h, s, [])
    decreases |es|
  {
    if es != [] {
      AllPassedOver(h, s, f, w, source, es[1..]);
    }
  }

  lemma OnlyMarker(w: Tree, source: Path, ws: seq<Path>, p: Path) returns (m: Path)
    requires StoreOk(w) && DeletionOrder(w, source, ws) && WhiteoutSet(w) == {p} && Below(p, source)
    ensures m in ws && !PassedOver(w, source, m) && VisibleFromStorage(w, m) == p
    ensures forall e :: e in ws && e != m ==> PassedOver(w, source, e)
  {
    assert p in WhiteoutSet(w);
    MarkerRoundTrip(w, p);
    m := MarkerPath(w, p).value.value;
    assert m in EntriesUnder(w, source);
    forall e | e in ws && e != m ensures PassedOver(w, source, e) {
      assert e in EntriesUnder(w, source) && StoredProperly(w, e);
      if w[e].File? {
        StorageRoundTrip(w, e);
      }
    }
  }

  /** The host's user has moved `d` to `d2` and left a link behind; the env has deleted a file of `d`, nothing else. */
  ghost predicate MovedBehindLink(h0: Tree, s0: S.State, f: Follow, w: Tree, source: Path, d: Path, d2: Path,
                                  name: Name)
  {
    && WellFormed(h0) && WellFormed(s0.lower) && StoreOk(w) && Below(d2, source) && Below(d, source)
    && (forall q :: q in s0.upper ==> !Below(q, source)) && WhiteoutSet(w) == {Child(d, name)}
    && Child(d, name) in s0.lower && s0.lower[Child(d, name)].File? && Child(d2, name) !in s0.lower
    && d in h0 && h0[d].Link? && f(Disk(h0, s0.lower), Place(OnHost, d)) == Place(OnHost, d2)
    && Get(h0, Child(d2, name)) == Get(s0.lower, Child(d, name))
  }

  lemma HasElement(us: seq<Path>)
    ensures us != [] ==> exists v :: v in us
  {
    if us != [] {
      assert us[0] in us;
    }
  }

  /** Then the commit goes through without `force`, and the moved file is gone from the host, though the snapshot
      never had it there. */
  lemma MovedFileIsLost(r: Reply<()>, h: Tree, l: Tree, h0: Tree, s0: S.State, f: Follow, u: Tree, w: Tree,
                        source: Path, us: seq<Path>, ws: seq<Path>, d: Path, d2: Path, name: Name)
    requires MovedBehindLink(h0, s0, f, w, source, d, d2, name)
    requires WrittenBack(r, h, l, h0, s0, f, u, w, source, false, us, ws)
    ensures r == Ok(()) && Child(d2, name) in h0 && Child(d2, name) !in h
    ensures !HostEditsKept(h0, s0.lower, h, source)
  {
    var p, q := Child(d, name), Child(d2, name);
    HasElement(us);
    var s1 := s0.(upper := u);
    MovedFilePasses(h0, s1, f, d, d2, name);
    assert Below(p, source);
    var m := OnlyMarker(w, source, ws, p);
    OnlyDeletion(h0, s1, f, w, source, ws, m);
    DeletionTakesAway(h0, s1, f, p);
    HostWithout(Disk(h0, s0.lower), Place(OnHost, q), SecondPlace(h0, s1, f, p));
    assert q in h0 && Within(q, q) && Below(q, source);
    assert Get(h, q) == None && Get(h0, q) != Get(s0.lower, q);
  }

  /** The check compares the deleted file with the moved one. */
  lemma MovedFilePasses(h: Tree, s: S.State, f: Follow, d: Path, d2: Path, name: Name)
    requires WellFormed(h) && WellFormed(s.lower) && Child(d, name) in s.lower && s.lower[Child(d, name)].File?
    requires d in h && h[d].Link? && f(Disk(h, s.lower), Place(OnHost, d)) == Place(OnHost, d2)
    requires Get(h, Child(d2, name)) == Get(s.lower, Child(d, name))
    ensures FirstPlace(h, s, f, Child(d, name)) == Place(OnHost, Child(d2, name))
            && CheckPasses(h, s, f, Child(d, name))
    ensures var k1 := Without(Disk(h, s.lower), Place(OnHost, Child(d2, name)));
            SecondPlace(h, s, f, Child(d, name)) == Place(InSnapshot, Child(d, name))
                && !Blocked(k1.lower, Child(d, name))
  {
    var k, p, q := Disk(h, s.lower), Child(d, name), Child(d2, name);
    StandsForItself(k, f, OnHost, d);
    StandsForItself(k, f, InSnapshot, p);
    BlockedMeans(s.lower, p);
    BlockedMeans(h, q);
    SameBelowAtLeaf(s.lower, p, h, q);
    StandsForItself(Without(k, Place(OnHost, q)), f, InSnapshot, p);
  }

  /** A store with a single marker */
  lemma OneMarker(source: Path, d: Path, x: Path) returns (w: Tree)
    requires source == Child(Root, "src") && d == Child(source, "d") && x == Child(d, "x")
    ensures StoreOk(w) && WhiteoutSet(w) == {x}
  {
    var dir := Dir(DEFAULT_DIR_MODE);
    w := map[Root := dir, source := dir, d := dir, x := File([], 0)];
    assert Clean(x);
    forall p ensures p in WhiteoutSet(w) <==> p == x {
      if p in w && Clean(p) {
        WhiteoutSetMeans(w, p);
      }
    }
  }

  /** A snapshot with that file, under an env that has deleted it */
  lemma OneDeleted(source: Path, d: Path, x: Path, file: Node) returns (s: S.State)
    requires source == Child(Root, "src") && d == Child(source, "d") && x == Child(d, "x") && file.File?
    ensures S.Inv(s) && s.gone == {x} && s.upper.Keys == {Root}
    ensures s.lower == map[Root := Dir(DEFAULT_DIR_MODE), source := Dir(DEFAULT_DIR_MODE), d := Dir(DEFAULT_DIR_MODE), x
                           := file]
  {
    var dir := Dir(DEFAULT_DIR_MODE);
    var lower: Tree := map[Root := dir, source := dir, d := dir, x := file];
    s := S.State(lower, map[Root := dir], {x}, S.Links(map[], map[], {}, (t, p) => true, (t, p) => S.Refused));
  }

  /** A host whose user has moved the directory away behind a link */
  lemma OneMoved(source: Path, d: Path, d2: Path, file: Node, target: string) returns (h: Tree)
    requires source == Child(Root, "src") && d == Child(source, "d") && d2 == Child(source, "d2") && file.File?
    ensures WellFormed(h) && SourceStraight(h, source) && Get(h, d) == Some(Link(target))
    ensures Get(h, Child(d2, "x")) == Some(file)
  {
    var dir := Dir(DEFAULT_DIR_MODE);
    h := map[Root := dir, source := dir, d := Link(target), d2 := dir, Child(d2, "x") := file];
  }

  /** There is such a host and such an env. */
  lemma MovedBehindLinkHappens(file: Node, target: string) returns (h0: Tree, s0: S.State, f: Follow, w: Tree)
    requires file.File?
    ensures var source := Child(Root, "src");
            && MovedBehindLink(h0, s0, f, w, source, Child(source, "d"), Child(source, "d2"), "x")
            && S.Inv(s0) && SourceStraight(h0, source) && s0.gone == WhiteoutSet(w)
  {
    var source := Child(Root, "src");
    var d, d2 := Child(source, "d"), Child(source, "d2");
    h0 := OneMoved(source, d, d2, file, target);
    f := (k, r) => Place(OnHost, d2);
    s0 := OneDeleted(source, d, Child(d, "x"), file);
    w := OneMarker(source, d, Child(d, "x"));
    assert Below(d2, source) && Below(d, source) && Child(d2, "x") !in s0.lower;
  }
}

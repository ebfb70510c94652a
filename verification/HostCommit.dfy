/** Writing an env's changes back to the host. */
module HostCommit {
  import opened Replies
  import opened Trees
  import opened WhiteoutStore
  import opened TreeComparison
  import opened PathLookup
  import opened StorageCleanup
  import opened CommitSteps
  import opened CommitSafety
  import S = OverlayState

  /** A layer after a cleanup, and the trees it went through on the way */
  ghost predicate CleanedUp(trees: seq<Tree>, t: Tree, cleared: Tree, applied: set<Path>) {
    && Trace(trees, t, cleared, applied)
    && (forall p :: p in cleared ==> p in t && cleared[p] == t[p])
    && (forall p :: p in applied && p in t && !t[p].Dir? ==> p !in cleared)
    && (forall p :: p in cleared && p.Child? && cleared[p].Dir? ==> ChildNames(cleared, p) != {})
  }

  /** What the two halves of the commit make of host and snapshot, whatever links are in the way: the entries `us`,
      and if all could be applied the markers `ws`. */
  ghost predicate WrittenBack(r: Reply<()>, h: Tree, l: Tree, h0: Tree, s0: S.State, f: Follow, u: Tree, w: Tree,
                              source: Path, force: bool, us: seq<Path>, ws: seq<Path>)
    requires WellFormed(h0) && WellFormed(s0.lower)
  {
    && UpperOrder(s0.upper, source, us)
    && var applied := ApplyEach(h0, s0, f, us, force);
    if applied.r.Err? then r == applied.r && h == applied.host && l == applied.s.lower
    else
      var deleted := DeleteEach(applied.host, applied.s.(upper := u), f, w, source, ws, force);
      && DeletionOrder(w, source, ws)
      && r == deleted.r && h == deleted.host && l == deleted.s.lower
  }

  /** No host edit is lost, and below the source no view is, at any moment; the layers end up cleared, and host and
      snapshot up to date. */
  ghost predicate Committed(r: Reply<()>, h: Tree, s: S.State, w: Tree, ms: seq<Moment>, source: Path, force: bool,
                            h0: Tree, s0: S.State)
  {
    && AllSafe(ms, h0, s0, source, force)
    && (r.Ok? ==> StoreOk(w) && Finished(h, s, w, ms, source, force, h0, s0))
    && (Agreed(h0, s0, source) || force ==> r != Err(Conflict))
    && (Agreed(h0, s0, source) && IsDir(h0, source) && Commitable(s0, source) ==> r.Ok?)
    && (IsDir(h0, source) ==> Refused(r, source, force, h0, s0))
  }

  /** How a commit that meets no link fails: as in conflict where what the env has written differs between snapshot
      and host, or if no file is in the way what it has deleted; else because of a file in the way. */
  ghost predicate Refused(r: Reply<()>, source: Path, force: bool, h0: Tree, s0: S.State) {
    && (!force && !UppersAgreed(h0, s0, source) ==> r == Err(Conflict))
    && (UppersAgreed(h0, s0, source) && r.Err? ==> r.errno in {Conflict, NotADirectory})
    && (!force && Commitable(s0, source) && DeletionsInReach(h0, s0, source) && r.Err? ==> r == Err(Conflict))
  }

  /** Some steps have been taken: what they did is what the state and the history show. */
  ghost predicate Taken(o: Outcome, r: Reply<()>, h: Tree, s: S.State, ms: seq<Moment>, before: seq<Moment>) {
    r == o.r && h == o.host && s == o.s && ms == before + o.moments
  }

  class EnvCommit {
    var host: Tree
    var lower: Tree
    var upper: Tree
    var whiteouts: Tree
    const links: S.Links
    const follows: Follow
    ghost var history: seq<Moment>

    ghost function Layers(): S.State
      reads this
    {
      S.State(lower, upper, WhiteoutSet(whiteouts), links)
    }

    /** The history ends with the state as it is. */
    ghost predicate Recorded()
      reads this
    {
      history != [] && history[|history| - 1] == Moment(host, Layers())
    }

    /** The layers are sound and the source directory is visible, in the snapshot too. */
    ghost predicate Valid(source: Path)
      reads this
    {
      && WellFormed(host) && StoreOk(whiteouts) && S.Inv(Layers())
      && IsDir(lower, source) && IsDir(S.View(Layers()), source)
    }

    /** The host's disk, as path lookups meet it */
    function TheDisk(): Disk
      reads this
    {
      Disk(host, lower)
    }

    /** One tree is replaced by another, and the moment recorded. */
    method Put(side: Side, t: Tree)
      modifies this`host, this`lower, this`history
      ensures TheDisk() == old(TheDisk()).With(side, t)
      ensures history == old(history) + [MomentAt(old(Layers()), TheDisk())] && Recorded()
    {
      if side.OnHost? {
        host := t;
      } else {
        lower := t;
      }
      history := history + [Moment(host, Layers())];
    }

    method PutInTurn(side: Side, cleared: Tree, made: Tree, done: Tree)
      modifies this`host, this`lower, this`history
      ensures TheDisk() == old(TheDisk()).With(side, done) && Recorded()
      ensures history == old(history) + [MomentAt(old(Layers()), old(TheDisk()).With(side, cleared)),
                                         MomentAt(old(Layers()), old(TheDisk()).With(side, made)),
                                         MomentAt(old(Layers()), old(TheDisk()).With(side, done))]
    {
      Put(side, cleared);
      Put(side, made);
      Put(side, done);
    }

    /** apply_upper_path at a place: what stands in the way goes, the directories are made, the node is put there. */
    method ApplyUpperPathAt(n: Node, r: Place) returns (applied: Reply<()>)
      requires TheDisk().Valid() && r.path.Child? && Recorded()
      modifies this`host, this`lower, this`history
      ensures Recorded() && TheDisk().Valid()
      ensures match ApplyAt(n, old(TheDisk()), follows, r)
              case Err(e) => applied == Err(e) && TheDisk() == old(TheDisk()) && history == old(history)
              case Ok(trail) => applied == Ok(()) && TheDisk() == trail.done
                                && history == old(history) + MomentsOn(old(Layers()), trail)
    {
      ghost var k, s := TheDisk(), Layers();
      ApplyAtKeepsShape(n, k, follows, r);
      var to := Target(TheDisk(), follows, r);
      if n.Dir? && IsLink(TheDisk(), r) && to.path !in TheDisk().On(to.side) {
        return Err(AlreadyExists);
      }
      var t := TheDisk().On(r.side);
      var result := ApplyUpperPath(n, t, r.path);
      if result.Err? {
        return Err(result.errno);
      }
      PutInTurn(r.side, Cleared(n, t, r.path), Made(n, t, r.path), result.value);
      return Ok(());
    }

    /** One upper entry, applied to the host and to the snapshot */
    method ApplyToBoth(v: Path) returns (r: Reply<()>)
      requires WellFormed(host) && WellFormed(lower) && v.Child? && v in upper && Recorded()
      modifies this`host, this`lower, this`history
      ensures Recorded() && WellFormed(host) && WellFormed(lower)
      ensures Taken(ApplyBoth(old(host), old(Layers()), follows, v), r, host, Layers(), history, old(history))
    {
      r := ApplyUpperPathAt(upper[v], Real(TheDisk(), follows, OnHost, v));
      if r.Err? {
        return;
      }
      r := ApplyUpperPathAt(upper[v], Real(TheDisk(), follows, InSnapshot, v));
    }

    /** The same, checked first */
    method ApplyUpperEntry(v: Path, force: bool) returns (r: Reply<()>)
      requires WellFormed(host) && WellFormed(lower) && v.Child? && v in upper && Recorded()
      modifies this`host, this`lower, this`history
      ensures Recorded() && WellFormed(host) && WellFormed(lower)
      ensures Taken(ApplyOne(old(host), old(Layers()), follows, v, force), r, host, Layers(), history, old(history))
    {
      r := EnsureNoHostConflict(TheDisk(), Real(TheDisk(), follows, InSnapshot, v), Real(TheDisk(), follows, OnHost, v),
                                force);
      if r.Ok? {
        r := ApplyToBoth(v);
      }
    }

    /** The first `i` upper entries have been applied; the rest will make it `whole`. */
    ghost predicate UppersUnderway(whole: Outcome, es: seq<Path>, i: nat, force: bool, start: seq<Moment>,
                                   made: seq<Moment>)
      reads this
    {
      && i <= |es| && (forall v :: v in es ==> v.Child? && v in upper)
      && WellFormed(host) && WellFormed(lower) && Recorded() && history == start + made
      && whole == After(made, ApplyEach(host, Layers(), follows, es[i..], force))
    }

    method ApplyNextUpper(es: seq<Path>, i: nat, force: bool, ghost whole: Outcome, ghost start: seq<Moment>,
                          ghost made: seq<Moment>)
      returns (r: Reply<()>, ghost more: seq<Moment>)
      requires i < |es| && UppersUnderway(whole, es, i, force, start, made)
      modifies this`host, this`lower, this`history
      ensures r.Ok? ==> UppersUnderway(whole, es, i + 1, force, start, more)
      ensures r.Err? ==> Taken(whole, r, host, Layers(), history, start) && Recorded() && WellFormed(host)
                         && WellFormed(lower)
    {
      ghost var first := ApplyOne(host, Layers(), follows, es[i], force);
      ApplyEachOn(host, Layers(), follows, es, i, force, made, whole, first);
      more := made + first.moments;
      r := ApplyUpperEntry(es[i], force);
      UppersFurther(whole, es, i, force, start, made, first, r);
    }

    lemma UppersFurther(whole: Outcome, es: seq<Path>, i: nat, force: bool, start: seq<Moment>, made: seq<Moment>,
                        first: Outcome, r: Reply<()>)
      requires i < |es| && (forall v :: v in es ==> v.Child? && v in upper) && Recorded()
      requires WellFormed(first.host) && WellFormed(first.s.lower) && first.s.upper == upper
      requires whole == if first.r.Err? then After(made, first)
                        else After(made + first.moments, ApplyEach(first.host, first.s, follows, es[i + 1..], force))
      requires Taken(first, r, host, Layers(), history, start + made)
      ensures r.Ok? ==> UppersUnderway(whole, es, i + 1, force, start, made + first.moments)
      ensures r.Err? ==> Taken(whole, r, host, Layers(), history, start)
    {
      assert start + made + first.moments == start + (made + first.moments);
    }

    lemma UppersBegin(es: seq<Path>, force: bool)
      requires WellFormed(host) && WellFormed(lower) && Recorded() && forall v :: v in es ==> v.Child? && v in upper
      ensures UppersUnderway(ApplyEach(host, Layers(), follows, es, force), es, 0, force, history, [])
    {
      assert es[0..] == es && history + [] == history;
    }

    /** None is left: what all of them make has been made. */
    lemma UppersOver(whole: Outcome, es: seq<Path>, force: bool, start: seq<Moment>, made: seq<Moment>)
      requires UppersUnderway(whole, es, |es|, force, start, made)
      ensures Taken(whole, Ok(()), host, Layers(), history, start) && Recorded() && WellFormed(host)
              && WellFormed(lower)
    {
      ApplyEachFrom(host, Layers(), follows, es, |es|, force);
    }

    /** The upper entries, one after the other. */
    method ApplyUpperEntries(es: seq<Path>, force: bool) returns (r: Reply<()>)
      requires WellFormed(host) && WellFormed(lower) && Recorded()
      requires forall v :: v in es ==> v.Child? && v in upper
      modifies this`host, this`lower, this`history
      ensures Recorded() && WellFormed(host) && WellFormed(lower)
      ensures Taken(ApplyEach(old(host), old(Layers()), follows, es, force), r, host, Layers(), history, old(history))
    {
      UppersBegin(es, force);
      ghost var whole, start, made := ApplyEach(host, Layers(), follows, es, force), history, [];
      var i := 0;
      while i < |es|
        invariant 0 <= i <= |es|
        invariant UppersUnderway(whole, es, i, force, start, made)
      {
        r, made := ApplyNextUpper(es, i, force, whole, start, made);
        if r.Err? {
          return;
        }
        i := i + 1;
      }
      UppersOver(whole, es, force, start, made);
      r := Ok(());
    }

    /** Clearing the applied upper entries */
    method ClearUpper(source: Path) returns (ghost trees: seq<Tree>)
      requires WellFormed(upper) && Recorded()
      modifies this`upper, this`history
      ensures Recorded() && CleanedUp(trees, old(upper), upper, EntriesUnder(old(upper), source))
      ensures history == old(history) + MomentsOf(host, old(Layers()), trees)
    {
      ghost var s := Layers();
      var cleared;
      cleared, trees := CleanupAppliedEntries(upper, EntriesUnder(upper, source));
      history := history + MomentsOf(host, s, trees);
      upper := cleared;
      assert Layers() == s.(upper := cleared);
    }

    /** remove_path_recursively_if_exists at a place */
    method RemovePathAt(r: Place) returns (removed: Reply<()>)
      requires TheDisk().Valid() && r.path.Child? && Recorded()
      modifies this`host, this`lower, this`history
      ensures Recorded() && TheDisk().Valid()
      ensures match RemoveAt(old(TheDisk()), r)
              case Err(e) => removed == Err(e) && TheDisk() == old(TheDisk()) && history == old(history)
              case Ok(k) => removed == Ok(()) && TheDisk() == k
                            && history == old(history) + [MomentAt(old(Layers()), k)]
    {
      RemoveAtMeans(TheDisk(), r);
      var result := RemoveIfExists(TheDisk().On(r.side), r.path);
      if result.Err? {
        return Err(result.errno);
      }
      Put(r.side, result.value);
      return Ok(());
    }

    /** One deletion, checked and then carried out on the host and in the snapshot. */
    method ApplyDeletion(p: Path, force: bool) returns (r: Reply<()>)
      requires WellFormed(host) && WellFormed(lower) && p.Child? && Recorded()
      modifies this`host, this`lower, this`history
      ensures Recorded() && WellFormed(host) && WellFormed(lower)
      ensures Taken(DeleteOne(old(host), old(Layers()), follows, p, force), r, host, Layers(), history, old(history))
    {
      var onHost := Real(TheDisk(), follows, OnHost, p);
      r := EnsureNoHostConflict(TheDisk(), Real(TheDisk(), follows, InSnapshot, p), onHost, force);
      if r.Err? {
        return;
      }
      r := RemovePathAt(onHost);
      if r.Err? {
        return;
      }
      r := RemovePathAt(Real(TheDisk(), follows, InSnapshot, p));
    }

    /** The first `i` entries of the store have been dealt with; the rest will make it `whole`. */
    ghost predicate DeletionsUnderway(whole: Outcome, source: Path, es: seq<Path>, i: nat, force: bool,
                                      start: seq<Moment>, made: seq<Moment>)
      reads this
    {
      && i <= |es| && WellFormed(host) && WellFormed(lower) && Recorded() && history == start + made
      && whole == After(made, DeleteEach(host, Layers(), follows, whiteouts, source, es[i..], force))
    }

    method ApplyNextDeletion(source: Path, es: seq<Path>, i: nat, force: bool, ghost whole: Outcome,
                             ghost start: seq<Moment>, ghost made: seq<Moment>)
      returns (r: Reply<()>, ghost more: seq<Moment>)
      requires i < |es| && !PassedOver(whiteouts, source, es[i])
      requires DeletionsUnderway(whole, source, es, i, force, start, made)
      modifies this`host, this`lower, this`history
      ensures r.Ok? ==> DeletionsUnderway(whole, source, es, i + 1, force, start, more)
      ensures r.Err? ==> Taken(whole, r, host, Layers(), history, start) && Recorded() && WellFormed(host)
                         && WellFormed(lower)
    {
      var visible := VisibleFromStorage(whiteouts, es[i]);
      ghost var first := DeleteOne(host, Layers(), follows, visible, force);
      DeleteEachOn(host, Layers(), follows, whiteouts, source, es, i, force, made, whole, first);
      more := made + first.moments;
      r := ApplyDeletion(visible, force);
      DeletionsFurther(whole, source, es, i, force, start, made, first, r);
    }

    lemma DeletionsFurther(whole: Outcome, source: Path, es: seq<Path>, i: nat, force: bool, start: seq<Moment>,
                           made: seq<Moment>, first: Outcome, r: Reply<()>)
      requires i < |es| && Recorded() && WellFormed(first.host) && WellFormed(first.s.lower)
      requires whole == if first.r.Err? then After(made, first)
                        else After(made + first.moments,
                                   DeleteEach(first.host, first.s, follows, whiteouts, source, es[i + 1..], force))
      requires Taken(first, r, host, Layers(), history, start + made)
      ensures r.Ok? ==> DeletionsUnderway(whole, source, es, i + 1, force, start, made + first.moments)
      ensures r.Err? ==> Taken(whole, r, host, Layers(), history, start)
    {
      assert start + made + first.moments == start + (made + first.moments);
    }

    /** None is left. */
    lemma DeletionsOver(whole: Outcome, source: Path, es: seq<Path>, force: bool, start: seq<Moment>, made: seq<Moment>)
      requires DeletionsUnderway(whole, source, es, |es|, force, start, made)
      ensures Taken(whole, Ok(()), host, Layers(), history, start) && Recorded() && WellFormed(host)
              && WellFormed(lower)
    {
      DeleteEachFrom(host, Layers(), follows, whiteouts, source, es, |es|, force);
    }

    /** The next entry: a directory or a marker elsewhere is passed over, else the deletion is carried out. */
    method ApplyOrPassOver(source: Path, es: seq<Path>, i: nat, force: bool, ghost whole: Outcome,
                           ghost start: seq<Moment>, ghost made: seq<Moment>)
      returns (r: Reply<()>, ghost more: seq<Moment>)
      requires i < |es| && DeletionsUnderway(whole, source, es, i, force, start, made)
      requires StoreOk(whiteouts) && source !in WhiteoutSet(whiteouts) && DeletionOrder(whiteouts, source, es)
      modifies this`host, this`lower, this`history
      ensures r.Ok? ==> DeletionsUnderway(whole, source, es, i + 1, force, start, more)
      ensures r.Err? ==> Taken(whole, r, host, Layers(), history, start) && Recorded() && WellFormed(host)
                         && WellFormed(lower)
    {
      EntryInStore(whiteouts, source, es, i);
      if whiteouts[es[i]].Dir? || !Within(VisibleFromStorage(whiteouts, es[i]), source) {
        DeleteEachFrom(host, Layers(), follows, whiteouts, source, es, i, force);
        return Ok(()), made;
      }
      r, more := ApplyNextDeletion(source, es, i, force, whole, start, made);
    }

    lemma DeletionsBegin(source: Path, es: seq<Path>, force: bool)
      requires WellFormed(host) && WellFormed(lower) && Recorded()
      ensures DeletionsUnderway(DeleteEach(host, Layers(), follows, whiteouts, source, es, force), source, es, 0, force,
                                history, [])
    {
      assert es[0..] == es && history + [] == history;
    }

    /** The deletions, one after the other; what is no marker is passed over. */
    method ApplyDeletions(source: Path, es: seq<Path>, force: bool) returns (r: Reply<()>)
      requires WellFormed(host) && WellFormed(lower) && Recorded()
      requires StoreOk(whiteouts) && source !in WhiteoutSet(whiteouts) && DeletionOrder(whiteouts, source, es)
      modifies this`host, this`lower, this`history
      ensures Recorded() && WellFormed(host) && WellFormed(lower)
      ensures Taken(DeleteEach(old(host), old(Layers()), follows, whiteouts, source, es, force), r, host, Layers(),
                    history, old(history))
    {
      DeletionsBegin(source, es, force);
      ghost var whole, start, made := DeleteEach(host, Layers(), follows, whiteouts, source, es, force), history, [];
      var i := 0;
      while i < |es|
        invariant 0 <= i <= |es|
        invariant DeletionsUnderway(whole, source, es, i, force, start, made)
      {
        r, made := ApplyOrPassOver(source, es, i, force, whole, start, made);
        if r.Err? {
          return;
        }
        i := i + 1;
      }
      DeletionsOver(whole, source, es, force, start, made);
      r := Ok(());
    }

    /** Clearing the applied markers */
    method ClearWhiteouts(source: Path) returns (ghost trees: seq<Tree>)
      requires StoreOk(whiteouts) && Recorded()
      modifies this`whiteouts, this`history
      ensures Recorded() && CleanedUp(trees, old(whiteouts), whiteouts, EntriesBelow(old(whiteouts), source))
      ensures history == old(history) + StoreMoments(host, old(Layers()), trees)
    {
      ghost var s := Layers();
      var cleared;
      cleared, trees := CleanupAppliedEntries(whiteouts, EntriesBelow(whiteouts, source));
      history := history + StoreMoments(host, s, trees);
      whiteouts := cleared;
      assert Layers() == s.(gone := WhiteoutSet(cleared));
    }

    /** The first half: the upper entries, shallow first, and then the layer is cleared of them */
    method WriteUppers(source: Path, force: bool) returns (r: Reply<()>, ghost us: seq<Path>)
      requires Valid(source) && history == [Moment(host, Layers())]
      modifies this`host, this`lower, this`upper, this`history
      ensures Recorded() && WellFormed(host) && WellFormed(lower) && UpperOrder(old(upper), source, us)
      ensures var applied := ApplyEach(old(host), old(Layers()), follows, us, force);
              r == applied.r && host == applied.host && Layers() == applied.s.(upper := upper)
      ensures r.Ok? ==> forall q :: Below(q, source) ==> q !in upper
      ensures SourceStraight(old(host), source) ==>
                UppersWritten(r, host, Layers(), history, source, force, old(host), old(Layers()))
    {
      ghost var h0, s0 := host, Layers();
      var uppers := SortByDepth(EntriesUnder(upper, source), false);
      us := uppers;
      EntriesAreUpper(s0.upper, source, us);
      r := ApplyUpperEntries(uppers, force);
      if r.Err? {
        if SourceStraight(h0, source) {
          RefusedUppersWritten(h0, s0, follows, source, force, us);
        }
        return;
      }
      ghost var trees := ClearUpper(source);
      NothingLeftBelow(upper, s0.upper, source);
      if SourceStraight(h0, source) {
        DoneUppersWritten(h0, s0, follows, source, force, us, upper, trees);
      }
    }

    /** The second half: the deletions, deepest first, and then the store is cleared of their markers */
    method WriteDeletions(source: Path, force: bool, ghost h0: Tree, ghost s0: S.State)
      returns (r: Reply<()>, ghost ws: seq<Path>)
      requires WellFormed(host) && WellFormed(lower) && Recorded()
      requires StoreOk(whiteouts) && source !in WhiteoutSet(whiteouts)
      requires WellFormed(h0) && S.Inv(s0) && IsDir(S.View(s0), source) && s0.gone == WhiteoutSet(whiteouts)
      modifies this`host, this`lower, this`whiteouts, this`history
      ensures Recorded() && DeletionOrder(old(whiteouts), source, ws)
      ensures var deleted := DeleteEach(old(host), old(Layers()), follows, old(whiteouts), source, ws, force);
              r == deleted.r && host == deleted.host && lower == deleted.s.lower
      ensures r.Ok? ==> forall q :: Below(q, source) ==> q !in whiteouts
      ensures Straight(h0, s0, source) && ClearedAt(old(host), old(Layers()), old(history), source, force, h0, s0) ==>
                Committed(r, host, Layers(), whiteouts, history, source, force, h0, s0)
    {
      ghost var h, s, w, ms := host, Layers(), whiteouts, history;
      var markers := SortByDepth(EntriesUnder(whiteouts, source), true);
      ws := markers;
      r := ApplyDeletions(source, markers, force);
      ghost var deleted := DeleteEach(h, s, follows, w, source, ws, force);
      ghost var straight := Straight(h0, s0, source) && ClearedAt(h, s, ms, source, force, h0, s0);
      if straight {
        DeletionsCommitted(h, s, follows, ms, w, source, force, ws, h0, s0);
      }
      if r.Ok? {
        ghost var trees := ClearWhiteouts(source);
        NothingLeftBelow(whiteouts, w, source);
        if straight {
          MarkersCleared(deleted, ms, w, source, force, ws, trees, whiteouts, h0, s0);
        }
      }
    }

    method WriteBack(source: Path, force: bool) returns (r: Reply<()>, ghost us: seq<Path>, ghost ws: seq<Path>)
      requires Valid(source)
      modifies this
      ensures Recorded()
      ensures WrittenBack(r, host, lower, old(host), old(Layers()), follows, upper, old(whiteouts), source, force, us,
                          ws)
      ensures r.Ok? ==> forall q :: Below(q, source) ==> q !in upper && q !in whiteouts
      ensures Straight(old(host), old(Layers()), source) ==>
                Committed(r, host, Layers(), whiteouts, history, source, force, old(host), old(Layers()))
    {
      ghost var h0, s0 := host, Layers();
      SourceNotGone(s0, source);
      history := [Moment(host, Layers())];
      ws := [];
      r, us := WriteUppers(source, force);
      if r.Ok? {
        r, ws := WriteDeletions(source, force, h0, s0);
      }
    }

    /** apply_path_preserving_overlay. Whatever is in the way, host and snapshot become what the two halves make of
        them. If no link is in the way, then at every moment the env sees below the source what it saw at the start,
        and without `force` every host edit is still there; where host and snapshot agreed on everything the env has
        written or deleted there is no conflict, and it succeeds exactly if no deletion lies below a file the env
        made, without `force` exactly if both is so. Without `force`, on a host that has the source, it ends with a
        conflict if they differ at something the env has written, and with no file above a deletion exactly if they
        differ at something it has written or deleted. When it succeeds, the layers hold nothing below the source any
        more, the snapshot is what the env saw, and so is the host wherever the two agreed before. */
    method ApplyPathPreservingOverlay(source: Path, force: bool)
      returns (r: Reply<()>, ghost us: seq<Path>, ghost ws: seq<Path>)
      requires Valid(source)
      modifies this
      ensures Recorded()
      ensures WrittenBack(r, host, lower, old(host), old(Layers()), follows, upper, old(whiteouts), source, force, us,
                          ws)
      ensures r.Ok? ==> forall q :: Below(q, source) ==> q !in upper && q !in whiteouts
      ensures Straight(old(host), old(Layers()), source) ==>
                Committed(r, host, Layers(), whiteouts, history, source, force, old(host), old(Layers()))
                && Delivered(r, host, Layers(), history, source, force, old(host), old(Layers()))
    {
      ghost var h0, s0 := host, Layers();
      r, us, ws := WriteBack(source, force);
      if Straight(h0, s0, source) {
        CommittedDelivers(r, host, Layers(), whiteouts, history, source, force, h0, s0);
      }
    }
  }

  // ----- the four parts of a commit

  lemma UppersCommitted(h0: Tree, s0: S.State, f: Follow, source: Path, force: bool, us: seq<Path>)
    requires WellFormed(h0) && S.Inv(s0) && IsDir(s0.lower, source) && IsDir(S.View(s0), source)
    requires SourceStraight(h0, source) && UpperOrder(s0.upper, source, us)
    ensures forall v :: v in us ==> v.Child? && v in s0.upper
    ensures UppersEnd(ApplyEach(h0, s0, f, us, force), [Moment(h0, s0)], source, force, us, h0, s0)
  {
    ProgressStarts(h0, s0, source, force);
    assert us[0..] == us;
    forall v | v in us ensures v.Child? && v in s0.upper {
      assert v in EntriesUnder(s0.upper, source);
    }
    UppersSafe(h0, s0, f, [Moment(h0, s0)], source, force, us, 0, h0, s0);
  }

  /** What the first half leads to where no link is in the way */
  ghost predicate UppersWritten(r: Reply<()>, h: Tree, s: S.State, ms: seq<Moment>, source: Path, force: bool,
                                h0: Tree, s0: S.State)
  {
    && AllSafe(ms, h0, s0, source, force)
    && (r.Ok? ==> ClearedAt(h, s, ms, source, force, h0, s0))
    && (IsDir(h0, source) && UppersAgreed(h0, s0, source) ==> r.Ok?)
    && (r == Err(Conflict) ==> !force && !UppersAgreed(h0, s0, source))
    && (IsDir(h0, source) && !force && r.Err? ==> r == Err(Conflict))
  }

  lemma EntriesAreUpper(u: Tree, source: Path, us: seq<Path>)
    requires UpperOrder(u, source, us)
    ensures forall v :: v in us ==> v.Child? && v in u
  {
    forall v | v in us ensures v.Child? && v in u {
      assert v in EntriesUnder(u, source);
    }
  }

  /** The first half, broken off */
  lemma RefusedUppersWritten(h0: Tree, s0: S.State, f: Follow, source: Path, force: bool, us: seq<Path>)
    requires WellFormed(h0) && S.Inv(s0) && IsDir(s0.lower, source) && IsDir(S.View(s0), source)
    requires SourceStraight(h0, source) && UpperOrder(s0.upper, source, us)
    ensures forall v :: v in us ==> v.Child? && v in s0.upper
    ensures var o := ApplyEach(h0, s0, f, us, force);
            o.r.Err? ==> UppersWritten(o.r, o.host, o.s, [Moment(h0, s0)] + o.moments, source, force, h0, s0)
  {
    UppersCommitted(h0, s0, f, source, force, us);
  }

  /** The first half, complete */
  lemma DoneUppersWritten(h0: Tree, s0: S.State, f: Follow, source: Path, force: bool, us: seq<Path>, u: Tree,
                          trees: seq<Tree>)
    requires WellFormed(h0) && S.Inv(s0) && IsDir(s0.lower, source) && IsDir(S.View(s0), source)
    requires SourceStraight(h0, source) && UpperOrder(s0.upper, source, us)
    requires CleanedUp(trees, s0.upper, u, EntriesUnder(s0.upper, source))
    ensures forall v :: v in us ==> v.Child? && v in s0.upper
    ensures var o := ApplyEach(h0, s0, f, us, force);
            o.r.Ok? ==>
              UppersWritten(o.r, o.host, o.s.(upper := u), [Moment(h0, s0)] + o.moments + MomentsOf(o.host, o.s, trees),
                            source, force, h0, s0)
  {
    UppersCommitted(h0, s0, f, source, force, us);
    var o := ApplyEach(h0, s0, f, us, force);
    if o.r.Ok? {
      var ms := [Moment(h0, s0)] + o.moments + MomentsOf(o.host, o.s, trees);
      UppersCleared(o, o.s.(upper := u), source, force, us, trees, ms, h0, s0);
    }
  }

  lemma SourceNotGone(s: S.State, source: Path)
    requires S.Inv(s) && IsDir(S.View(s), source)
    ensures source !in s.gone
  {
    S.ViewIsShow(s);
    assert Get(S.View(s), source) == S.Show(s, source);
  }

  lemma UppersCleared(applied: Outcome, s1: S.State, source: Path, force: bool, us: seq<Path>, trees: seq<Tree>,
                      ms1: seq<Moment>, h0: Tree, s0: S.State)
    requires S.Inv(s0) && UppersEnd(applied, [Moment(h0, s0)], source, force, us, h0, s0) && applied.r.Ok?
    requires CleanedUp(trees, s0.upper, s1.upper, EntriesUnder(s0.upper, source)) && s1 == applied.s.(upper := s1.upper)
    requires ms1 == [Moment(h0, s0)] + applied.moments + MomentsOf(applied.host, applied.s, trees)
    ensures ClearedAt(applied.host, s1, ms1, source, force, h0, s0)
  {
    var h, s := applied.host, applied.s;
    HoldsWhenAllApplied(h, s0, source, us);
    HoldsWhenAllApplied(s.lower, s0, source, us);
    forall v | v in s0.upper && Below(v, source) ensures v in us {
      assert v in EntriesUnder(s0.upper, source);
    }
    ClearedUpper(h0, s0, h, s, [Moment(h0, s0)] + applied.moments, source, force, trees, s1.upper);
  }

  lemma DeletionsCommitted(h: Tree, s: S.State, f: Follow, ms: seq<Moment>, w: Tree, source: Path, force: bool,
                           ws: seq<Path>, h0: Tree, s0: S.State)
    requires WellFormed(h0) && S.Inv(s0) && IsDir(S.View(s0), source) && Straight(h0, s0, source)
    requires ClearedAt(h, s, ms, source, force, h0, s0)
    requires StoreOk(w) && s0.gone == WhiteoutSet(w) && DeletionOrder(w, source, ws)
    ensures DeletionsEnd(DeleteEach(h, s, f, w, source, ws, force), ms, w, source, force, ws, |ws|, h0, s0)
  {
    assert ws[0..] == ws;
    DeletionsSafe(h, s, f, ms, w, source, force, ws, 0, h0, s0);
  }

  lemma MarkersCleared(deleted: Outcome, ms: seq<Moment>, w: Tree, source: Path, force: bool, ws: seq<Path>,
                       trees: seq<Tree>, cleared: Tree, h0: Tree, s0: S.State)
    requires S.Inv(s0) && DeletionsEnd(deleted, ms, w, source, force, ws, |ws|, h0, s0) && deleted.r.Ok?
    requires CleanedUp(trees, w, cleared, EntriesBelow(w, source))
    ensures StoreOk(cleared)
    ensures Finished(deleted.host, deleted.s.(gone := WhiteoutSet(cleared)), cleared,
                     ms + deleted.moments + StoreMoments(deleted.host, deleted.s, trees), source, force, h0, s0)
  {
    ClearedWhiteouts(h0, s0, deleted.host, deleted.s, w, ms + deleted.moments, source, force, ws, trees, cleared);
  }

  // ----- what a commit delivers

  /** What the caller has after a commit that met no link. */
  ghost predicate Delivered(r: Reply<()>, h: Tree, s: S.State, ms: seq<Moment>, source: Path, force: bool, h0: Tree,
                            s0: S.State)
  {
    && (r.Ok? ==> forall q :: Below(q, source) ==> Get(s.lower, q) == Get(S.View(s0), q))
    && (r.Ok? ==> forall q :: Below(q, source) && SameSubtree(s0.lower, h0, q) ==> Get(h, q) == Get(S.View(s0), q))
    && (IsDir(h0, source) && DeletionsInLower(s0, source) && Agreed(h0, s0, source)
        ==> (r.Ok? <==> !StaleWhiteout(s0, source)))
    && (IsDir(h0, source) && DeletionsInLower(s0, source) && !force ==>
          (r.Ok? <==> Agreed(h0, s0, source) && !StaleWhiteout(s0, source)))
    && (IsDir(h0, source) && Agreed(h0, s0, source) && r.Err? ==> r == Err(NotADirectory))
    && (IsDir(h0, source) && !force && !UppersAgreed(h0, s0, source) ==> r == Err(Conflict))
    && (IsDir(h0, source) && !force && Commitable(s0, source) && DeletionsInReach(h0, s0, source) ==>
          (r == Err(Conflict) <==> !Agreed(h0, s0, source)))
    && (force ==> r != Err(Conflict))
    && (HollowsMatch(s0, source) ==> forall m :: m in ms ==> S.View(m.layers) == S.View(s0))
    && (r.Ok? ==> (S.View(s) == S.View(s0) <==> HollowsMatch(s0, source)))
  }

  lemma CommittedDelivers(r: Reply<()>, h: Tree, s: S.State, w: Tree, ms: seq<Moment>, source: Path, force: bool,
                          h0: Tree, s0: S.State)
    requires S.Inv(s0) && Committed(r, h, s, w, ms, source, force, h0, s0)
    ensures Delivered(r, h, s, ms, source, force, h0, s0)
  {
    HistoryShows(ms, h0, s0, source, force);
    if r.Ok? {
      FinishedShows(h, s, w, ms, source, force, h0, s0);
    }
  }
}

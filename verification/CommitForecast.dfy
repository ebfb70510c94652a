/** Telling beforehand which host edits a commit without `force` loses, where links lead to fixed places. */
module CommitForecast {
  import opened Replies
  import opened Trees
  import opened WhiteoutStore
  import opened PathLookup
  import opened StorageCleanup
  import opened CommitSteps
  import opened CommitSafety
  import opened HostCommit
  import opened CommitThroughLinks
  import S = OverlayState

  /** Every link leads to one place, whatever else is on the disk. */
  ghost predicate Fixed(f: Follow) {
    forall j: Disk, k: Disk, r: Place :: f(j, r) == f(k, r)
  }

  /** `c` is what some removals have left of `k`. */
  ghost predicate LeftOf(k: Disk, c: Disk) {
    forall side, q :: q in c.On(side) ==> Get(c.On(side), q) == Get(k.On(side), q)
  }

  /** A path still leads where it led, or to where nothing is any more. */
  lemma {:induction false} LeadsSameOrNowhere(k: Disk, c: Disk, f: Follow, side: Side, p: Path)
    requires Fixed(f) && LeftOf(k, c) && c.Valid()
    ensures var r := Real(c, f, side, p);
            r == Real(k, f, side, p) || r.path !in c.On(r.side)
  {
    if p.Child? {
      LeadsSameOrNowhere(k, c, f, side, p.parent);
      var a := Real(c, f, side, p.parent);
      if a.path in c.On(a.side) {
        assert Get(c.On(a.side), a.path) == Get(k.On(a.side), a.path);
      } else {
        NothingBelow(c.On(a.side), Child(a.path, p.name), a.path);
      }
    }
  }

  /** The path of the host, or that of the snapshot, leads to an edit. */
  ghost predicate LeadsToEdit(h0: Tree, l0: Tree, k: Disk, f: Follow, source: Path, p: Path) {
    EditAt(h0, l0, k.host, source, Real(k, f, OnHost, p)) || EditAt(h0, l0, k.host, source, Real(k, f, InSnapshot, p))
  }

  lemma EditStillThere(h0: Tree, l0: Tree, k: Disk, c: Disk, f: Follow, source: Path, side: Side, p: Path)
    requires Fixed(f) && LeftOf(k, c) && c.Valid() && EditAt(h0, l0, c.host, source, Real(c, f, side, p))
    ensures EditAt(h0, l0, k.host, source, Real(k, f, side, p))
  {
    LeadsSameOrNowhere(k, c, f, side, p);
    var r := Real(c, f, side, p);
    var q :| Below(q, source) && Within(q, r.path) && q in c.host && Get(h0, q) != Get(l0, q);
    AncestorsAreDirs(c.host, q, r.path);
    assert Get(c.On(OnHost), q) == Get(k.On(OnHost), q);
  }

  /** A deletion whose path leads to no edit loses none, and only takes away. */
  lemma DeletionSpares(h0: Tree, l0: Tree, k: Disk, h: Tree, s: S.State, f: Follow, source: Path, p: Path)
    requires WellFormed(h) && WellFormed(s.lower) && p.Child? && HostEditsKept(h0, l0, h, source)
    requires Fixed(f) && LeftOf(k, Disk(h, s.lower)) && !LeadsToEdit(h0, l0, k, f, source, p)
    ensures var o := DeleteOne(h, s, f, p, false);
            HostEditsKept(h0, l0, o.host, source) && LeftOf(k, Disk(o.host, o.s.lower))
  {
    DeletionLosesExactly(h0, l0, h, s, f, source, p);
    DeletionLeaves(k, h, s, f, p);
    var c := Disk(h, s.lower);
    if EditAt(h0, l0, h, source, FirstPlace(h, s, f, p)) {
      EditStillThere(h0, l0, k, c, f, source, OnHost, p);
    }
    if EditAt(h0, l0, h, source, SecondPlace(h, s, f, p)) && CheckPasses(h, s, f, p) {
      SecondEditStillThere(h0, l0, k, h, s, f, source, p);
    }
  }

  lemma DeletionLeaves(k: Disk, h: Tree, s: S.State, f: Follow, p: Path)
    requires WellFormed(h) && WellFormed(s.lower) && p.Child? && LeftOf(k, Disk(h, s.lower))
    ensures var o := DeleteOne(h, s, f, p, false);
            LeftOf(k, Disk(o.host, o.s.lower))
  {
    DeletionTakesAway(h, s, f, p);
    var o, c := DeleteOne(h, s, f, p, false), Disk(h, s.lower);
    var k1 := Without(c, FirstPlace(h, s, f, p));
    var k2 := Without(k1, SecondPlace(h, s, f, p));
    forall side, q | q in Disk(o.host, o.s.lower).On(side)
      ensures Get(Disk(o.host, o.s.lower).On(side), q) == Get(k.On(side), q)
    {
      assert q in c.On(side);
      assert Get(c.On(side), q) == Get(k.On(side), q);
    }
  }

  /** An edit at the second place that the first removal has not taken was there before. */
  lemma SecondEditStillThere(h0: Tree, l0: Tree, k: Disk, h: Tree, s: S.State, f: Follow, source: Path, p: Path)
    requires WellFormed(h) && WellFormed(s.lower) && p.Child? && Fixed(f) && LeftOf(k, Disk(h, s.lower))
    requires EditAt(h0, l0, h, source, SecondPlace(h, s, f, p))
    ensures LeadsToEdit(h0, l0, k, f, source, p)
  {
    var c, first, second := Disk(h, s.lower), FirstPlace(h, s, f, p), SecondPlace(h, s, f, p);
    var c1 := Without(c, first);
    RemoveAtMeans(c, first);
    var q :| Below(q, source) && Within(q, second.path) && q in h && Get(h0, q) != Get(l0, q);
    if q in c1.host {
      assert EditAt(h0, l0, c1.host, source, second);
      EditStillThere(h0, l0, k, c1, f, source, InSnapshot, p);
    } else {
      assert EditAt(h0, l0, h, source, first);
      EditStillThere(h0, l0, k, c, f, source, OnHost, p);
    }
  }

  /** None of the deletions leads to an edit, as the disk is before them. */
  ghost predicate NoneLeadsToEdit(h0: Tree, l0: Tree, k: Disk, f: Follow, w: Tree, source: Path, es: seq<Path>) {
    forall e :: e in es && !PassedOver(w, source, e) ==> !LeadsToEdit(h0, l0, k, f, source, VisibleFromStorage(w, e))
  }

  /** Then they lose none, whether all of them come about or not. */
  lemma {:induction false} DeletionsSpare(h0: Tree, l0: Tree, k: Disk, h: Tree, s: S.State, f: Follow, w: Tree,
                                          source: Path, es: seq<Path>)
    requires WellFormed(h) && WellFormed(s.lower) && HostEditsKept(h0, l0, h, source)
    requires Fixed(f) && LeftOf(k, Disk(h, s.lower)) && NoneLeadsToEdit(h0, l0, k, f, w, source, es)
    ensures HostEditsKept(h0, l0, DeleteEach(h, s, f, w, source, es, false).host, source)
    decreases |es|
  {
    if es != [] {
      assert es[0] in es && forall e :: e in es[1..] ==> e in es;
      if PassedOver(w, source, es[0]) {
        DeletionsSpare(h0, l0, k, h, s, f, w, source, es[1..]);
      } else {
        var p := VisibleFromStorage(w, es[0]);
        DeletionSpares(h0, l0, k, h, s, f, source, p);
        var first := DeleteOne(h, s, f, p, false);
        if first.r.Ok? {
          DeletionsSpare(h0, l0, k, first.host, first.s, f, w, source, es[1..]);
        }
      }
    }
  }

  // ----- which they lose, if all of them come about

  /** A place that a lookup of the path comes by */
  ghost predicate OnWay(k: Disk, f: Follow, side: Side, p: Path, r: Place) {
    p.Child? && (r == Real(k, f, side, p.parent) || OnWay(k, f, side, p.parent, r))
  }

  /** No deletion takes away a link that a deleted path leads through. */
  ghost predicate LinksStay(k: Disk, f: Follow, marks: set<Path>) {
    forall p, side, r, q, other :: p in marks && OnWay(k, f, side, p, r) && IsLink(k, r) && q in marks ==>
      !Covers(Real(k, f, other, q), r)
  }

  predicate Covers(a: Place, r: Place) {
    a.side == r.side && Within(r.path, a.path)
  }

  /** Every link on the way of a deleted path is still there. */
  ghost predicate LinksThere(k: Disk, c: Disk, f: Follow, marks: set<Path>) {
    forall p, side, r :: p in marks && OnWay(k, f, side, p, r) && IsLink(k, r) ==> r.path in c.On(r.side)
  }

  lemma {:induction false} LeadsSame(k: Disk, c: Disk, f: Follow, side: Side, p: Path)
    requires Fixed(f) && LeftOf(k, c)
    requires forall r :: OnWay(k, f, side, p, r) && IsLink(k, r) ==> r.path in c.On(r.side)
    ensures Real(c, f, side, p) == Real(k, f, side, p)
  {
    if p.Child? {
      forall r | OnWay(k, f, side, p.parent, r) && IsLink(k, r) ensures r.path in c.On(r.side) {
        assert OnWay(k, f, side, p, r);
      }
      LeadsSame(k, c, f, side, p.parent);
      var a := Real(k, f, side, p.parent);
      assert OnWay(k, f, side, p, a);
      assert a.path in c.On(a.side) ==> Get(c.On(a.side), a.path) == Get(k.On(a.side), a.path);
    }
  }

  lemma LinksThereWithout(k: Disk, c: Disk, f: Follow, marks: set<Path>, p: Path, side: Side)
    requires LinksStay(k, f, marks) && LinksThere(k, c, f, marks) && LeftOf(k, c) && p in marks
    ensures LinksThere(k, Without(c, Real(k, f, side, p)), f, marks) && LeftOf(k, Without(c, Real(k, f, side, p)))
  {
    var a := Real(k, f, side, p);
    forall q, to, r | q in marks && OnWay(k, f, to, q, r) && IsLink(k, r) ensures r.path in Without(c, a).On(r.side) {
      assert !Covers(a, r);
    }
    forall to, q | q in Without(c, a).On(to) ensures Get(Without(c, a).On(to), q) == Get(k.On(to), q) {
      assert q in c.On(to) && Get(c.On(to), q) == Get(k.On(to), q);
    }
  }

  /** The places of a deletion are the ones known beforehand. */
  lemma PlacesForeseen(k: Disk, h: Tree, s: S.State, f: Follow, marks: set<Path>, p: Path)
    requires WellFormed(h) && WellFormed(s.lower) && p.Child? && p in marks && Fixed(f)
    requires LeftOf(k, Disk(h, s.lower)) && LinksStay(k, f, marks) && LinksThere(k, Disk(h, s.lower), f, marks)
    ensures FirstPlace(h, s, f, p) == Real(k, f, OnHost, p) && SecondPlace(h, s, f, p) == Real(k, f, InSnapshot, p)
    ensures var o := DeleteOne(h, s, f, p, false);
            LeftOf(k, Disk(o.host, o.s.lower)) && LinksThere(k, Disk(o.host, o.s.lower), f, marks)
  {
    var c := Disk(h, s.lower);
    LeadsSame(k, c, f, OnHost, p);
    LinksThereWithout(k, c, f, marks, p, OnHost);
    var c1 := Without(c, Real(k, f, OnHost, p));
    LeadsSame(k, c1, f, InSnapshot, p);
    LinksThereWithout(k, c1, f, marks, p, InSnapshot);
    DeletionTakesAway(h, s, f, p);
  }

  /** An edit known beforehand to be at a place is still there if no edit has been lost. */
  lemma KeptIsThere(h0: Tree, l0: Tree, k: Disk, c: Disk, source: Path, a: Place)
    requires HostEditsKept(h0, l0, k.host, source) && HostEditsKept(h0, l0, c.host, source)
    requires EditAt(h0, l0, k.host, source, a)
    ensures EditAt(h0, l0, c.host, source, a)
  {
    var q :| Below(q, source) && Within(q, a.path) && q in k.host && Get(h0, q) != Get(l0, q);
    assert Get(k.host, q) == Get(h0, q) && Get(c.host, q) == Get(h0, q);
  }

  lemma {:induction false} ForeseenIsLost(h0: Tree, l0: Tree, k: Disk, h: Tree, s: S.State, f: Follow, w: Tree,
                                          source: Path, marks: set<Path>, es: seq<Path>)
    requires WellFormed(h) && WellFormed(s.lower) && Fixed(f) && LeftOf(k, Disk(h, s.lower))
    requires LinksStay(k, f, marks) && LinksThere(k, Disk(h, s.lower), f, marks)
    requires HostEditsKept(h0, l0, k.host, source) && HostEditsKept(h0, l0, h, source)
    requires forall e :: e in es && !PassedOver(w, source, e) ==> VisibleFromStorage(w, e) in marks
    requires DeleteEach(h, s, f, w, source, es, false).r.Ok?
    requires HostEditsKept(h0, l0, DeleteEach(h, s, f, w, source, es, false).host, source)
    ensures NoneLeadsToEdit(h0, l0, k, f, w, source, es)
    decreases |es|
  {
    if es != [] {
      assert es[0] in es && forall e :: e in es[1..] ==> e in es;
      assert forall e :: e in es ==> e == es[0] || e in es[1..];
      if PassedOver(w, source, es[0]) {
        ForeseenIsLost(h0, l0, k, h, s, f, w, source, marks, es[1..]);
      } else {
        var p := VisibleFromStorage(w, es[0]);
        var first := DeleteOne(h, s, f, p, false);
        FirstLosesNone(h0, l0, k, h, s, f, w, source, marks, es, first);
        ForeseenIsLost(h0, l0, k, first.host, first.s, f, w, source, marks, es[1..]);
      }
    }
  }

  lemma FirstLosesNone(h0: Tree, l0: Tree, k: Disk, h: Tree, s: S.State, f: Follow, w: Tree, source: Path,
                       marks: set<Path>, es: seq<Path>, first: Outcome)
    requires WellFormed(h) && WellFormed(s.lower) && Fixed(f) && LeftOf(k, Disk(h, s.lower))
    requires LinksStay(k, f, marks) && LinksThere(k, Disk(h, s.lower), f, marks)
    requires HostEditsKept(h0, l0, k.host, source) && HostEditsKept(h0, l0, h, source)
    requires es != [] && !PassedOver(w, source, es[0]) && VisibleFromStorage(w, es[0]) in marks
    requires first == DeleteOne(h, s, f, VisibleFromStorage(w, es[0]), false)
    requires DeleteEach(h, s, f, w, source, es, false).r.Ok?
    requires HostEditsKept(h0, l0, DeleteEach(h, s, f, w, source, es, false).host, source)
    ensures first.r.Ok? && HostEditsKept(h0, l0, first.host, source)
    ensures !LeadsToEdit(h0, l0, k, f, source, VisibleFromStorage(w, es[0]))
    ensures LeftOf(k, Disk(first.host, first.s.lower)) && LinksThere(k, Disk(first.host, first.s.lower), f, marks)
    ensures DeleteEach(first.host, first.s, f, w, source, es[1..], false).r.Ok?
    ensures HostEditsKept(h0, l0, DeleteEach(first.host, first.s, f, w, source, es[1..], false).host, source)
  {
    var p := VisibleFromStorage(w, es[0]);
    PlacesForeseen(k, h, s, f, marks, p);
    DeletionLosesExactly(h0, l0, h, s, f, source, p);
    DeletionTakesAway(h, s, f, p);
    if !HostEditsKept(h0, l0, first.host, source) {
      OnlyTakenAway(h, s, f, p);
      LostStaysLost(h0, l0, h, first, f, w, source, es[1..]);
    }
    if LeadsToEdit(h0, l0, k, f, source, p) {
      MeetsForeseen(h0, l0, k, Disk(h, s.lower), f, source, p);
    }
  }

  lemma MeetsForeseen(h0: Tree, l0: Tree, k: Disk, c: Disk, f: Follow, source: Path, p: Path)
    requires HostEditsKept(h0, l0, k.host, source) && HostEditsKept(h0, l0, c.host, source)
    requires LeadsToEdit(h0, l0, k, f, source, p)
    ensures EditAt(h0, l0, c.host, source, Real(k, f, OnHost, p))
            || EditAt(h0, l0, c.host, source, Real(k, f, InSnapshot, p))
  {
    if EditAt(h0, l0, k.host, source, Real(k, f, OnHost, p)) {
      KeptIsThere(h0, l0, k, c, source, Real(k, f, OnHost, p));
    } else {
      KeptIsThere(h0, l0, k, c, source, Real(k, f, InSnapshot, p));
    }
  }

  // ----- the whole commit

  /** What the env has deleted below the source */
  function Marks(s: S.State, source: Path): set<Path> {
    set p | p in s.gone && Below(p, source)
  }

  /** The store's entries are the marks. */
  lemma EntriesAreMarks(w: Tree, s: S.State, source: Path, ws: seq<Path>)
    requires StoreOk(w) && s.gone == WhiteoutSet(w) && source !in s.gone && DeletionOrder(w, source, ws)
    ensures forall e :: e in ws && !PassedOver(w, source, e) ==> VisibleFromStorage(w, e) in Marks(s, source)
    ensures forall p :: p in Marks(s, source) ==>
              exists e :: e in ws && !PassedOver(w, source, e) && VisibleFromStorage(w, e) == p
  {
    forall e | e in ws && !PassedOver(w, source, e) ensures VisibleFromStorage(w, e) in Marks(s, source) {
      assert e in EntriesUnder(w, source) && StoredProperly(w, e);
      StorageRoundTrip(w, e);
    }
    forall p | p in Marks(s, source)
      ensures exists e :: e in ws && !PassedOver(w, source, e) && VisibleFromStorage(w, e) == p
    {
      MarkerRoundTrip(w, p);
      var m := MarkerPath(w, p).value.value;
      assert m in EntriesUnder(w, source);
      assert m in ws;
    }
  }

  /** With links that lead to fixed places, look at host and snapshot once the upper entries are applied: if no deleted
      path leads to a host edit, on the host or from the snapshot, the commit loses none, whether it succeeds or not.
      If it succeeds, and no deletion takes away a link that a deleted path leads through, it loses none only then. */
  lemma LossForeseen(r: Reply<()>, h: Tree, l: Tree, h0: Tree, s0: S.State, f: Follow, u: Tree, w: Tree, source: Path,
                     us: seq<Path>, ws: seq<Path>)
    requires WellFormed(h0) && S.Inv(s0) && IsDir(s0.lower, source) && IsDir(S.View(s0), source)
    requires StoreOk(w) && s0.gone == WhiteoutSet(w) && Fixed(f)
    requires SourceStraight(h0, source) && WrittenBack(r, h, l, h0, s0, f, u, w, source, false, us, ws)
    ensures var applied := ApplyEach(h0, s0, f, us, false);
            var k, marks := Disk(applied.host, applied.s.lower), Marks(s0, source);
            var none := forall p :: p in marks ==> !LeadsToEdit(h0, s0.lower, k, f, source, p);
            && (none || applied.r.Err? ==> HostEditsKept(h0, s0.lower, h, source))
            && (r.Ok? && LinksStay(k, f, marks) ==> (HostEditsKept(h0, s0.lower, h, source) <==> none))
  {
    UppersKeepEdits(h0, s0, f, source, us);
    SourceNotGone(s0, source);
    var applied := ApplyEach(h0, s0, f, us, false);
    if applied.r.Ok? {
      DeletionsForeseen(applied.host, applied.s.(upper := u), h0, s0, f, w, source, ws);
    }
  }

  lemma DeletionsForeseen(h: Tree, s: S.State, h0: Tree, s0: S.State, f: Follow, w: Tree, source: Path, ws: seq<Path>)
    requires WellFormed(h) && WellFormed(s.lower) && HostEditsKept(h0, s0.lower, h, source)
    requires StoreOk(w) && s0.gone == WhiteoutSet(w) && source !in s0.gone && DeletionOrder(w, source, ws) && Fixed(f)
    ensures var o, k, marks := DeleteEach(h, s, f, w, source, ws, false), Disk(h, s.lower), Marks(s0, source);
            var none := forall p :: p in marks ==> !LeadsToEdit(h0, s0.lower, k, f, source, p);
            && (none ==> HostEditsKept(h0, s0.lower, o.host, source))
            && (o.r.Ok? && LinksStay(k, f, marks) && HostEditsKept(h0, s0.lower, o.host, source) ==> none)
  {
    var o, k, marks := DeleteEach(h, s, f, w, source, ws, false), Disk(h, s.lower), Marks(s0, source);
    EntriesAreMarks(w, s0, source, ws);
    if forall p :: p in marks ==> !LeadsToEdit(h0, s0.lower, k, f, source, p) {
      DeletionsSpare(h0, s0.lower, k, h, s, f, w, source, ws);
    }
    if o.r.Ok? && LinksStay(k, f, marks) && HostEditsKept(h0, s0.lower, o.host, source) {
      ForeseenIsLost(h0, s0.lower, k, h, s, f, w, source, marks, ws);
      forall p | p in marks ensures !LeadsToEdit(h0, s0.lower, k, f, source, p) {
        var e :| e in ws && !PassedOver(w, source, e) && VisibleFromStorage(w, e) == p;
      }
    }
  }
}

/** Walking a storage tree in depth order, and clearing applied entries out of it. */
module StorageCleanup {
  import opened Replies
  import opened Trees
  import opened WhiteoutStore

  /** The sort key of the two walks: shallowest first, or deepest first. */
  function Rank(p: Path, deepestFirst: bool): int {
    if deepestFirst then -(Depth(p) as int) else Depth(p)
  }

  ghost predicate ByDepth(es: seq<Path>, deepestFirst: bool) {
    forall i, j :: 0 <= i < j < |es| ==>
      if deepestFirst then Depth(es[i]) >= Depth(es[j]) else Depth(es[i]) <= Depth(es[j])
  }

  lemma {:induction false} FirstByDepth(todo: set<Path>, deepestFirst: bool) returns (m: Path)
    requires todo != {}
    ensures m in todo && forall q :: q in todo ==> Rank(m, deepestFirst) <= Rank(q, deepestFirst)
    decreases todo
  {
    m :| m in todo;
    if todo != {m} {
      var rest := todo - {m};
      assert todo == rest + {m};
      var k := FirstByDepth(rest, deepestFirst);
      if Rank(k, deepestFirst) < Rank(m, deepestFirst) {
        m := k;
      }
    }
  }

  lemma ByDepthSnoc(es: seq<Path>, p: Path, deepestFirst: bool)
    requires ByDepth(es, deepestFirst) && p !in es && NoDuplicates(es)
    requires forall i :: 0 <= i < |es| ==> Rank(es[i], deepestFirst) <= Rank(p, deepestFirst)
    ensures ByDepth(es + [p], deepestFirst) && NoDuplicates(es + [p])
  {
  }

  /** The given paths in depth order, each once; equals come in any order. */
  method SortByDepth(paths: set<Path>, deepestFirst: bool) returns (es: seq<Path>)
    ensures NoDuplicates(es) && ByDepth(es, deepestFirst)
    ensures forall q :: q in es <==> q in paths
  {
    es := [];
    var todo := paths;
    while todo != {}
      invariant todo <= paths
      invariant NoDuplicates(es) && ByDepth(es, deepestFirst)
      invariant forall q :: q in es <==> q in paths && q !in todo
      invariant forall i, q :: 0 <= i < |es| && q in todo ==> Rank(es[i], deepestFirst) <= Rank(q, deepestFirst)
      decreases todo
    {
      ghost var first := FirstByDepth(todo, deepestFirst);
      var p :| p in todo && forall q :: q in todo ==> Rank(p, deepestFirst) <= Rank(q, deepestFirst);
      assert forall i :: 0 <= i < |es| ==> es[i] in es;
      ByDepthSnoc(es, p, deepestFirst);
      es := es + [p];
      todo := todo - {p};
    }
  }

  /** collect_overlay_apply_entries: every node strictly below `root`. */
  function EntriesUnder(t: Tree, root: Path): set<Path> {
    set q | q in t && Below(q, root)
  }

  // ----- clearing

  /** One removal of a cleanup: a childless node goes, and if it is a file or link it was an applied entry. */
  ghost predicate LeafRemoved(t: Tree, u: Tree, applied: set<Path>) {
    exists p :: LeafRemovedAt(t, u, applied, p)
  }

  ghost predicate LeafRemovedAt(t: Tree, u: Tree, applied: set<Path>, p: Path) {
    p in t && p != Root && ChildNames(t, p) == {} && u == t - {p} && (!t[p].Dir? ==> p in applied)
  }

  /** The trees a cleanup goes through, one removal apart. */
  ghost predicate Trace(trees: seq<Tree>, t: Tree, u: Tree, applied: set<Path>) {
    && |trees| > 0 && trees[0] == t && trees[|trees| - 1] == u
    && (forall i :: 0 <= i < |trees| ==> WellFormed(trees[i]))
    && forall i :: 0 <= i < |trees| - 1 ==> LeafRemoved(trees[i], trees[i + 1], applied)
  }

  lemma LeafRemovedKeepsShape(t: Tree, p: Path)
    requires WellFormed(t) && p in t && p != Root && ChildNames(t, p) == {}
    ensures WellFormed(t - {p})
  {
    assert forall q :: q in t && q.Child? && q.parent == p ==> q.name in ChildNames(t, p);
  }

  lemma TraceExtends(trees: seq<Tree>, t: Tree, u: Tree, applied: set<Path>, p: Path)
    requires Trace(trees, t, u, applied) && p in u && p != Root && ChildNames(u, p) == {}
    requires !u[p].Dir? ==> p in applied
    ensures WellFormed(u - {p}) && Trace(trees + [u - {p}], t, u - {p}, applied)
  {
    LeafRemovedKeepsShape(u, p);
    var longer := trees + [u - {p}];
    forall i | 0 <= i < |longer| - 1 ensures LeafRemoved(longer[i], longer[i + 1], applied) {
      if i == |trees| - 1 {
        assert LeafRemovedAt(u, u - {p}, applied, p);
      } else {
        assert longer[i] == trees[i] && longer[i + 1] == trees[i + 1];
      }
    }
  }

  /** Files and links have no children. */
  lemma LeafHasNoChildren(t: Tree, p: Path)
    requires WellFormed(t) && p in t && !t[p].Dir?
    ensures ChildNames(t, p) == {}
  {
    ChildNamesAreChildren(t, p);
  }

  /** remove_overlay_storage_entry, deepest entries first */
  method RemoveAppliedEntries(t0: Tree, applied: set<Path>) returns (t: Tree, ghost trees: seq<Tree>)
    requires WellFormed(t0) && Root !in applied && applied <= t0.Keys
    ensures Trace(trees, t0, t, applied)
    ensures forall p :: p in t ==> p in t0 && t[p] == t0[p]
    ensures forall p :: p in applied && !t0[p].Dir? ==> p !in t
  {
    t, trees := t0, [t0];
    var entries := SortByDepth(applied, true);
    var i := 0;
    while i < |entries|
      invariant 0 <= i <= |entries|
      invariant WellFormed(t) && Trace(trees, t0, t, applied)
      invariant forall p :: p in t ==> p in t0 && t[p] == t0[p]
      invariant forall j :: 0 <= j < i && !t0[entries[j]].Dir? ==> entries[j] !in t
    {
      var p := entries[i];
      assert p in applied;
      i := i + 1;
      if p in t {
        if !t[p].Dir? {
          LeafHasNoChildren(t, p);
        }
        if ChildNames(t, p) == {} {
          TraceExtends(trees, t0, t, applied, p);
          t := t - {p};
          trees := trees + [t];
        }
      }
    }
    forall p | p in applied && !t0[p].Dir? ensures p !in t {
      assert p in entries;
    }
  }

  /** remove_empty_storage_parents, continuing the trace of what came before */
  method RemoveEmptyStorageParents(t1: Tree, ghost t0: Tree, ghost before: seq<Tree>, ghost applied: set<Path>)
    returns (t: Tree, ghost trees: seq<Tree>)
    requires Trace(before, t0, t1, applied)
    ensures Trace(trees, t0, t, applied)
    ensures forall p :: p in t ==> p in t1 && t[p] == t1[p]
    ensures forall p :: p in t && p.Child? && t[p].Dir? ==> ChildNames(t, p) != {}
  {
    t, trees := t1, before;
    var dirs := SortByDepth(set p | p in t && p.Child? && t[p].Dir?, true);
    forall j | 0 <= j < |dirs| ensures IsDir(t, dirs[j]) && dirs[j] != Root {
      assert dirs[j] in dirs;
    }
    var i := 0;
    while i < |dirs|
      invariant 0 <= i <= |dirs|
      invariant WellFormed(t) && Trace(trees, t0, t, applied)
      invariant forall p :: p in t ==> p in t1 && t[p] == t1[p]
      invariant forall p :: p in t && p.Child? && t[p].Dir? ==> p in dirs
      invariant Swept(t, dirs, i)
    {
      var p := dirs[i];
      SweepOn(t, dirs, i);
      if ChildNames(t, p) == {} {
        TraceExtends(trees, t0, t, applied, p);
        t := t - {p};
        trees := trees + [t];
      }
      i := i + 1;
    }
  }

  /** cleanup_applied_overlay_entries. No applied file or link is left, and no directory but the root is empty. */
  method CleanupAppliedEntries(t0: Tree, applied: set<Path>) returns (t: Tree, ghost trees: seq<Tree>)
    requires WellFormed(t0) && Root !in applied && applied <= t0.Keys
    ensures Trace(trees, t0, t, applied)
    ensures forall p :: p in t ==> p in t0 && t[p] == t0[p]
    ensures forall p :: p in applied && !t0[p].Dir? ==> p !in t
    ensures forall p :: p in t && p.Child? && t[p].Dir? ==> ChildNames(t, p) != {}
  {
    t, trees := RemoveAppliedEntries(t0, applied);
    t, trees := RemoveEmptyStorageParents(t, t0, trees, applied);
  }

  /** The directories visited so far are gone or not empty; the others are still to come. */
  ghost predicate Swept(t: Tree, dirs: seq<Path>, i: nat) {
    && i <= |dirs| && NoDuplicates(dirs) && ByDepth(dirs, true)
    && (forall j :: i <= j < |dirs| ==> IsDir(t, dirs[j]) && dirs[j] != Root)
    && (forall j :: 0 <= j < i && dirs[j] in t ==> ChildNames(t, dirs[j]) != {})
  }

  /** In deepest-first order, removing one directory empties none that was visited before. */
  lemma SweepOn(t: Tree, dirs: seq<Path>, i: nat)
    requires WellFormed(t) && Swept(t, dirs, i) && i < |dirs|
    ensures Swept(if ChildNames(t, dirs[i]) == {} then t - {dirs[i]} else t, dirs, i + 1)
  {
    if ChildNames(t, dirs[i]) == {} {
      var u := t - {dirs[i]};
      forall j | 0 <= j < i + 1 && dirs[j] in u ensures ChildNames(u, dirs[j]) != {} {
        var n :| n in ChildNames(t, dirs[j]);
        ChildNamesAreChildren(t, dirs[j]);
        ChildNamesAreChildren(u, dirs[j]);
        assert Rank(dirs[j], true) <= Rank(dirs[i], true);
        assert Child(dirs[j], n) != dirs[i];
      }
    }
  }

  /** Where only directories are left and none of them is empty, nothing is left. */
  lemma {:induction false} NothingLeft(t: Tree, source: Path, p: Path)
    requires WellFormed(t)
    requires forall q :: q in t && Below(q, source) ==> t[q].Dir? && ChildNames(t, q) != {}
    requires p in t && Below(p, source)
    ensures false
    decreases Subtree(t, p)
  {
    var n :| n in ChildNames(t, p);
    ChildNamesAreChildren(t, p);
    SubtreeShrinks(t, p, n);
    WithinTransitive(p, p.parent, source);
    NothingLeft(t, source, Child(p, n));
  }
}

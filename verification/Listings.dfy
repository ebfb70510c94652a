/** Inode numbers, the order of a listing, and reading a listing in pages. */
module Listings {
  import opened Replies
  import opened Trees
  import S = OverlayState

  const ROOT_INO: nat := 1

  /** The table that gives every path asked about its inode number, for good. */
  class InodeTable {
    var next: nat
    var byPath: map<Path, nat>
    var byIno: map<nat, Path>

    /** The two maps are inverse to one another; the root has the reserved number, all others were handed out. */
    ghost predicate Valid()
      reads this
    {
      && (forall p :: p in byPath ==> byPath[p] in byIno && byIno[byPath[p]] == p)
      && (forall i :: i in byIno ==> byIno[i] in byPath && byPath[byIno[i]] == i)
      && (forall p :: p in byPath ==> if p.Root? then byPath[p] == ROOT_INO else ROOT_INO < byPath[p] < next)
    }

    constructor ()
      ensures Valid() && byPath == map[Root := ROOT_INO]
    {
      next := 0;
      byPath := map[Root := ROOT_INO];
      byIno := map[ROOT_INO := Root];
    }

    /** intern: the path's number, a new one only if it has none; no number changes its path. */
    method Intern(p: Path) returns (ino: nat)
      requires Valid()
      modifies this
      ensures Valid()
      ensures byPath == if p in old(byPath) then old(byPath) else old(byPath)[p := ino]
      ensures byPath[p] == ino && byIno[ino] == p
      ensures forall i :: i in old(byIno) ==> i in byIno && byIno[i] == old(byIno)[i]
    {
      if p in byPath {
        return byPath[p];
      }
      if p.Root? {
        ino := ROOT_INO;
      } else {
        next := if next < ROOT_INO + 1 then ROOT_INO + 1 else next;
        ino := next;
        next := next + 1;
      }
      byPath := byPath[p := ino];
      byIno := byIno[ino := p];
    }
  }

  // ----- the order of names

  /** Lexicographic order, the order of the map a listing is collected in. */
  predicate NameLeq(a: Name, b: Name) {
    a == [] || (b != [] && (a[0] < b[0] || (a[0] == b[0] && NameLeq(a[1..], b[1..]))))
  }

  lemma {:induction false} NameLeqTotal(a: Name, b: Name)
    ensures NameLeq(a, b) || NameLeq(b, a)
    ensures NameLeq(a, b) && NameLeq(b, a) ==> a == b
  {
    if a != [] && b != [] {
      NameLeqTotal(a[1..], b[1..]);
      assert a == [a[0]] + a[1..] && b == [b[0]] + b[1..];
    }
  }

  lemma {:induction false} NameLeqTransitive(a: Name, b: Name, c: Name)
    requires NameLeq(a, b) && NameLeq(b, c)
    ensures NameLeq(a, c)
  {
    if a != [] && a[0] == b[0] == c[0] {
      NameLeqTransitive(a[1..], b[1..], c[1..]);
    }
  }

  predicate IsLeast(names: set<Name>, m: Name) {
    m in names && forall n :: n in names ==> NameLeq(m, n)
  }

  lemma {:induction false} LeastNameExists(names: set<Name>) returns (m: Name)
    requires names != {}
    ensures IsLeast(names, m)
    decreases names
  {
    var x :| x in names;
    NameLeqTotal(x, x);
    if names == {x} {
      m := x;
    } else {
      var rest := names - {x};
      assert names == rest + {x};
      var y := LeastNameExists(rest);
      NameLeqTotal(x, y);
      if NameLeq(x, y) {
        m := x;
        forall n | n in rest ensures NameLeq(x, n) {
          NameLeqTransitive(x, y, n);
        }
      } else {
        m := y;
      }
    }
  }

  lemma LeastNameUnique(names: set<Name>)
    requires names != {}
    ensures exists m :: IsLeast(names, m)
    ensures forall a, b :: IsLeast(names, a) && IsLeast(names, b) ==> a == b
  {
    var m := LeastNameExists(names);
    forall a, b | IsLeast(names, a) && IsLeast(names, b) ensures a == b {
      NameLeqTotal(a, b);
    }
  }

  function LeastName(names: set<Name>): (m: Name)
    requires names != {}
    ensures IsLeast(names, m)
  {
    LeastNameUnique(names);
    var m :| m in names && IsLeast(names, m);
    m
  }

  /** The names in order. */
  function SortedNames(names: set<Name>): seq<Name>
    decreases |names|
  {
    if names == {} then []
    else var m := LeastName(names); [m] + SortedNames(names - {m})
  }

  /** Every name once. */
  lemma {:induction false} SortedNamesListsOnce(names: set<Name>)
    ensures forall n :: n in SortedNames(names) <==> n in names
    ensures forall i, j :: 0 <= i < j < |SortedNames(names)| ==> SortedNames(names)[i] != SortedNames(names)[j]
    decreases |names|
  {
    if names != {} {
      var m := LeastName(names);
      SortedNamesListsOnce(names - {m});
      assert SortedNames(names) == [m] + SortedNames(names - {m});
    }
  }

  /** `a` comes before `b`: it is the beginning of `b`, or has the smaller character where they first differ. */
  ghost predicate Before(a: Name, b: Name) {
    exists k: nat :: SplitAt(a, b, k)
  }

  ghost predicate SplitAt(a: Name, b: Name, k: nat) {
    k <= |a| && k < |b| && a[..k] == b[..k] && (k == |a| || a[k] < b[k])
  }

  lemma {:induction false} LeqMeansBefore(a: Name, b: Name)
    requires NameLeq(a, b) && a != b
    ensures Before(a, b)
    decreases |a|
  {
    if a == [] || a[0] < b[0] {
      assert SplitAt(a, b, 0);
    } else {
      assert a == [a[0]] + a[1..] && b == [b[0]] + b[1..];
      LeqMeansBefore(a[1..], b[1..]);
      var k: nat :| SplitAt(a[1..], b[1..], k);
      assert a[..k + 1] == [a[0]] + a[1..][..k] && b[..k + 1] == [b[0]] + b[1..][..k];
      assert SplitAt(a, b, k + 1);
    }
  }

  /** In ascending order. */
  lemma {:induction false} SortedNamesAscend(names: set<Name>)
    ensures forall i, j :: 0 <= i < j < |SortedNames(names)| ==> Before(SortedNames(names)[i], SortedNames(names)[j])
    decreases |names|
  {
    if names != {} {
      var m := LeastName(names);
      var rest := SortedNames(names - {m});
      SortedNamesAscend(names - {m});
      SortedNamesListsOnce(names - {m});
      assert SortedNames(names) == [m] + rest;
      forall j | 0 <= j < |rest| ensures Before(m, rest[j]) {
        assert rest[j] in names - {m};
        LeqMeansBefore(m, rest[j]);
      }
    }
  }

  // ----- paging

  datatype DirEntry = DirEntry(ino: nat, kind: S.Kind, name: Name)

  function Min(a: nat, b: nat): nat {
    if a <= b then a else b
  }

  /** What one readdir call returns when `room` entries fit: those from `offset` on. */
  function Page<T>(entries: seq<T>, offset: nat, room: nat): seq<T> {
    entries[Min(offset, |entries|)..Min(offset + room, |entries|)]
  }

  /** The offset that goes with the last entry returned, or the old one if nothing was. */
  function NextOffset<T>(entries: seq<T>, offset: nat, room: nat): nat {
    if Page(entries, offset, room) == [] then offset else offset + |Page(entries, offset, room)|
  }

  /** Reading on from the returned offset, call after call, whatever fits each time. */
  function ReadPages<T>(entries: seq<T>, offset: nat, rooms: seq<nat>): seq<T>
    decreases |rooms|
  {
    if rooms == [] then []
    else Page(entries, offset, rooms[0]) + ReadPages(entries, NextOffset(entries, offset, rooms[0]), rooms[1..])
  }

  function Total(rooms: seq<nat>): nat {
    if rooms == [] then 0 else rooms[0] + Total(rooms[1..])
  }

  /** However the pages are cut, they put together the listing from the first offset on, each entry once. */
  lemma {:induction false} PagesCoverListing<T>(entries: seq<T>, offset: nat, rooms: seq<nat>)
    requires offset <= |entries|
    ensures ReadPages(entries, offset, rooms) == entries[offset..Min(offset + Total(rooms), |entries|)]
    decreases |rooms|
  {
    if rooms != [] {
      var next := NextOffset(entries, offset, rooms[0]);
      assert next == Min(offset + rooms[0], |entries|);
      PagesCoverListing(entries, next, rooms[1..]);
    }
  }
}

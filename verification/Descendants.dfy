/** The processes below a process, from a listing of parent links. */
module Descendants {
  import opened Replies

  datatype Process = Process(pid: nat, ppid: nat)

  /** `pid` is reached from `root` by following exactly `n` links from parent to child. */
  ghost predicate ReachedBy(processes: seq<Process>, root: nat, pid: nat, n: nat)
    decreases n, 1
  {
    n > 0 && exists i :: 0 <= i < |processes| && LinkTo(processes, root, pid, n, i)
  }

  ghost predicate LinkTo(processes: seq<Process>, root: nat, pid: nat, n: nat, i: nat)
    requires n > 0 && i < |processes|
    decreases n, 0
  {
    processes[i].pid == pid &&
    if n == 1 then processes[i].ppid == root else ReachedBy(processes, root, processes[i].ppid, n - 1)
  }

  ghost predicate IsDescendant(processes: seq<Process>, root: nat, pid: nat) {
    exists n: nat :: ReachedBy(processes, root, pid, n)
  }

  lemma ChildOfReached(processes: seq<Process>, root: nat, i: nat)
    requires i < |processes|
    requires processes[i].ppid == root || IsDescendant(processes, root, processes[i].ppid)
    ensures IsDescendant(processes, root, processes[i].pid)
  {
    if processes[i].ppid == root {
      assert LinkTo(processes, root, processes[i].pid, 1, i);
      assert ReachedBy(processes, root, processes[i].pid, 1);
    } else {
      var n: nat :| ReachedBy(processes, root, processes[i].ppid, n);
      assert LinkTo(processes, root, processes[i].pid, n + 1, i);
      assert ReachedBy(processes, root, processes[i].pid, n + 1);
    }
  }

  /** Every child of the root or of a found process has been found. */
  ghost predicate Closed(processes: seq<Process>, root: nat, found: set<nat>) {
    forall i :: 0 <= i < |processes| && (processes[i].ppid == root || processes[i].ppid in found) ==>
      processes[i].pid in found
  }

  lemma {:induction false} ClosedHasAll(processes: seq<Process>, root: nat, found: set<nat>, pid: nat, n: nat)
    requires Closed(processes, root, found) && ReachedBy(processes, root, pid, n)
    ensures pid in found
    decreases n
  {
    var i :| 0 <= i < |processes| && LinkTo(processes, root, pid, n, i);
    if n > 1 {
      ClosedHasAll(processes, root, found, processes[i].ppid, n - 1);
    }
  }

  /** Each found process's children are found too, unless the process still waits in the queue. */
  ghost predicate ClosedButFor(processes: seq<Process>, root: nat, seen: set<nat>, waiting: set<nat>) {
    forall i :: 0 <= i < |processes| && (processes[i].ppid == root || processes[i].ppid in seen)
                && processes[i].ppid !in waiting ==>
      processes[i].pid in seen
  }

  ghost function Pids(processes: seq<Process>): set<nat> {
    set i | 0 <= i < |processes| :: processes[i].pid
  }

  ghost function Elements(s: seq<nat>): set<nat> {
    set x | x in s
  }

  /** The processes found so far: descendants, each listed once. */
  ghost predicate Found(processes: seq<Process>, root: nat, descendants: seq<nat>, seen: set<nat>) {
    && NoDuplicates(descendants) && Elements(descendants) == seen && seen <= Pids(processes)
    && forall p :: p in seen ==> IsDescendant(processes, root, p)
  }

  lemma FoundGrows(processes: seq<Process>, root: nat, descendants: seq<nat>, seen: set<nat>, i: nat)
    requires Found(processes, root, descendants, seen) && i < |processes|
    requires processes[i].ppid == root || processes[i].ppid in seen
    requires processes[i].pid !in seen
    ensures Found(processes, root, descendants + [processes[i].pid], seen + {processes[i].pid})
  {
    var pid := processes[i].pid;
    ChildOfReached(processes, root, i);
    assert pid !in Elements(descendants);
    var longer := descendants + [pid];
    forall p ensures p in Elements(longer) <==> p in seen + {pid} {
      assert p in longer <==> p in descendants || p == pid;
    }
  }

  /** One round of the work list: looks up the children of `parent` in the whole listing. */
  method VisitChildren(processes: seq<Process>, root: nat, parent: nat, descendants0: seq<nat>, seen0: set<nat>,
                       queue0: seq<nat>)
    returns (descendants: seq<nat>, seen: set<nat>, queue: seq<nat>)
    requires Found(processes, root, descendants0, seen0) && (parent == root || parent in seen0)
    requires forall p :: p in queue0 ==> p == root || p in seen0
    requires ClosedButFor(processes, root, seen0, Elements(queue0) + {parent})
    ensures Found(processes, root, descendants, seen) && seen0 <= seen
    ensures forall p :: p in queue ==> p == root || p in seen
    ensures ClosedButFor(processes, root, seen, Elements(queue))
    ensures seen == seen0 ==> queue == queue0
  {
    descendants, seen, queue := descendants0, seen0, queue0;
    for i := 0 to |processes|
      invariant Found(processes, root, descendants, seen) && seen0 <= seen
      invariant forall p :: p in queue ==> p == root || p in seen
      invariant ClosedButFor(processes, root, seen, Elements(queue) + {parent})
      invariant forall j :: 0 <= j < i && processes[j].ppid == parent ==> processes[j].pid in seen
      invariant seen == seen0 ==> queue == queue0
    {
      var pid := processes[i].pid;
      if processes[i].ppid == parent && pid !in seen {
        FoundGrows(processes, root, descendants, seen, i);
        ghost var waiting := Elements(queue) + {parent};
        seen := seen + {pid};
        descendants := descendants + [pid];
        queue := queue + [pid];
        assert forall p :: p in waiting || p == pid ==> p in Elements(queue) + {parent} by {
          assert queue[|queue| - 1] == pid;
        }
      }
    }
  }

  /** descendant_pids_from_ps, after the listing is parsed: a work list of processes whose children are yet to
      be looked up. It ends on every listing, cycles and repeated rows included, and returns each process
      below the root exactly once. */
  method DescendantPids(processes: seq<Process>, root: nat) returns (descendants: seq<nat>)
    ensures NoDuplicates(descendants)
    ensures forall p :: p in descendants <==> IsDescendant(processes, root, p)
  {
    descendants := [];
    var seen: set<nat> := {};
    var queue := [root];
    while queue != []
      invariant Found(processes, root, descendants, seen)
      invariant forall p :: p in queue ==> p == root || p in seen
      invariant ClosedButFor(processes, root, seen, Elements(queue))
      decreases |Pids(processes) - seen|, |queue|
    {
      var parent := queue[|queue| - 1];
      assert parent in queue;
      ghost var seen0 := seen;
      assert forall p :: p in queue ==> p in queue[..|queue| - 1] || p == parent;
      descendants, seen, queue := VisitChildren(processes, root, parent, descendants, seen, queue[..|queue| - 1]);
      SmallerRest(processes, seen0, seen);
    }
    forall p ensures p in descendants <==> IsDescendant(processes, root, p) {
      assert p in descendants <==> p in Elements(descendants);
      if IsDescendant(processes, root, p) {
        var n: nat :| ReachedBy(processes, root, p, n);
        assert Closed(processes, root, seen);
        ClosedHasAll(processes, root, seen, p, n);
      }
    }
  }

  lemma SmallerRest(processes: seq<Process>, seen0: set<nat>, seen: set<nat>)
    requires seen0 <= seen <= Pids(processes)
    ensures seen == seen0 || |Pids(processes) - seen| < |Pids(processes) - seen0|
  {
    var all := Pids(processes);
    if seen != seen0 {
      assert seen - seen0 != {} by {
        assert seen == seen0 + (seen - seen0);
      }
      var x :| x in seen - seen0;
      assert all - seen <= (all - seen0) - {x};
      SubsetSize(all - seen, (all - seen0) - {x});
    }
  }

  lemma {:induction false} SubsetSize(a: set<nat>, b: set<nat>)
    requires a <= b
    ensures |a| <= |b|
    decreases a
  {
    if a != {} {
      var x :| x in a;
      SubsetSize(a - {x}, b - {x});
    }
  }
}

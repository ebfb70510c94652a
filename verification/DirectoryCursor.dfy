/** Handing out the upper layer's directory entries, one per query or all together, with a name as cursor. */
module DirectoryCursor {
  import opened Replies

  type Name = string

  /** A listed entry and the room its record takes in the output. */
  datatype Entry = Entry(name: Name, size: nat)

  /** One enumeration over the upper directory: what it put out and whether it reached the end. */
  datatype Scan = Scan(out: seq<Entry>, used: nat, last: Option<Name>, exhausted: bool)

  const START := Scan([], 0, None, true)

  /** The directory as it is seen during an enumeration: how names compare, and which are whited out. */
  datatype View = View(upcase: Name -> Name, hidden: Name -> bool) {
    predicate Same(a: Name, b: Name) {
      upcase(a) == upcase(b)
    }
  }

  // ----- one enumeration, as a function of the listing

  /** Entries are put out in order until the end, the limit (if not 0), or one that does not fit. */
  function Emit(v: View, entries: seq<Entry>, limit: nat, capacity: nat, scan: Scan): Scan
    decreases |entries|
  {
    if entries == [] then scan
    else if v.hidden(entries[0].name) then Emit(v, entries[1..], limit, capacity, scan)
    else if scan.used + entries[0].size > capacity then scan.(exhausted := false)
    else
      var next := Scan(scan.out + [entries[0]], scan.used + entries[0].size, Some(entries[0].name), scan.exhausted);
      if limit != 0 && |next.out| >= limit then next.(exhausted := false)
      else Emit(v, entries[1..], limit, capacity, next)
  }

  /** The listing behind the cursor's name; nothing if the name is not there. */
  function Behind(v: View, entries: seq<Entry>, cursor: Name): seq<Entry> {
    if entries == [] then []
    else if v.Same(entries[0].name, cursor) then entries[1..]
    else Behind(v, entries[1..], cursor)
  }

  /** The first entry whose name compares equal, upper case or lower, is where the enumeration goes on. */
  lemma {:induction false} BehindMeans(v: View, entries: seq<Entry>, cursor: Name, k: nat)
    requires k <= |entries| && forall i :: 0 <= i < k ==> v.upcase(entries[i].name) != v.upcase(cursor)
    requires k < |entries| ==> v.upcase(entries[k].name) == v.upcase(cursor)
    ensures Behind(v, entries, cursor) == if k < |entries| then entries[k + 1..] else []
  {
    if k > 0 {
      BehindMeans(v, entries[1..], cursor, k - 1);
    }
  }

  function FromCursor(v: View, entries: seq<Entry>, cursor: Option<Name>): seq<Entry> {
    match cursor
    case None => entries
    case Some(name) => Behind(v, entries, name)
  }

  function Enumerate(v: View, entries: seq<Entry>, cursor: Option<Name>, limit: nat, capacity: nat): Scan {
    Emit(v, FromCursor(v, entries, cursor), limit, capacity, START)
  }

  // ----- the driver's loops

  function Flatten(batches: seq<seq<Entry>>): seq<Entry> {
    if batches == [] then [] else batches[0] + Flatten(batches[1..])
  }

  /** What is still to come of an enumeration, while looking for the cursor or after. */
  ghost function Rest(v: View, seeking: bool, entries: seq<Entry>, cursor: Option<Name>, limit: nat, capacity: nat,
                      scan: Scan): Scan
  {
    Emit(v, if seeking then FromCursor(v, entries, cursor) else entries, limit, capacity, scan)
  }

  /** One entry of the listing decides how the enumeration goes on. */
  lemma RestStep(v: View, seeking: bool, entries: seq<Entry>, first: Entry, rest: seq<Entry>, cursor: Option<Name>,
                 limit: nat, capacity: nat, scan: Scan)
    requires entries == [first] + rest && (seeking ==> cursor.Some?)
    ensures Rest(v, seeking, entries, cursor, limit, capacity, scan) ==
              if seeking then Rest(v, !v.Same(first.name, cursor.value), rest, cursor, limit, capacity, scan)
              else if v.hidden(first.name) then Rest(v, false, rest, cursor, limit, capacity, scan)
              else if scan.used + first.size > capacity then scan.(exhausted := false)
              else
                var next := Scan(scan.out + [first], scan.used + first.size, Some(first.name), scan.exhausted);
                if limit != 0 && |next.out| >= limit then next.(exhausted := false)
                else Rest(v, false, rest, cursor, limit, capacity, next)
  {
    assert entries[0] == first && entries[1..] == rest;
  }

  /** AgentFsAppendUpperDirectoryEntries: the listing arrives in batches of any sizes; entries up to the cursor
      are passed over, the others put out. */
  method AppendUpperDirectoryEntries(v: View, batches: seq<seq<Entry>>, cursor: Option<Name>, limit: nat, capacity: nat)
    returns (scan: Scan)
    ensures scan == Enumerate(v, Flatten(batches), cursor, limit, capacity)
  {
    scan := START;
    var seekPastCursor := cursor.Some?;
    var b := 0;
    assert batches[0..] == batches;
    while b < |batches|
      invariant 0 <= b <= |batches|
      invariant seekPastCursor ==> cursor.Some?
      invariant Enumerate(v, Flatten(batches), cursor, limit, capacity)
                == Rest(v, seekPastCursor, Flatten(batches[b..]), cursor, limit, capacity, scan)
    {
      var batch := batches[b];
      assert batches[b..][1..] == batches[b + 1..];
      var i := 0;
      assert batch[0..] == batch;
      while i < |batch|
        invariant 0 <= i <= |batch|
        invariant seekPastCursor ==> cursor.Some?
        invariant Enumerate(v, Flatten(batches), cursor, limit, capacity)
                  == Rest(v, seekPastCursor, batch[i..] + Flatten(batches[b + 1..]), cursor, limit, capacity, scan)
      {
        var entry := batch[i];
        ghost var rest := batch[i + 1..] + Flatten(batches[b + 1..]);
        assert batch[i..] + Flatten(batches[b + 1..]) == [entry] + rest;
        RestStep(v, seekPastCursor, [entry] + rest, entry, rest, cursor, limit, capacity, scan);
        i := i + 1;
        if seekPastCursor {
          if v.Same(entry.name, cursor.value) {
            seekPastCursor := false;
          }
          continue;
        }
        if !v.hidden(entry.name) {
          if scan.used + entry.size > capacity {
            scan := scan.(exhausted := false);
            return;
          }
          scan := Scan(scan.out + [entry], scan.used + entry.size, Some(entry.name), scan.exhausted);
          if limit != 0 && |scan.out| >= limit {
            scan := scan.(exhausted := false);
            return;
          }
        }
      }
      assert batch[i..] == [];
      assert [] + Flatten(batches[b + 1..]) == Flatten(batches[b + 1..]);
      b := b + 1;
    }
    assert batches[b..] == [];
    assert Rest(v, seekPastCursor, [], cursor, limit, capacity, scan) == scan;
  }

  // ----- the state of an open directory

  datatype Progress = Progress(merged: bool, exhausted: bool, cursor: Option<Name>)

  const RESET := Progress(false, false, None)

  /** One query for a single entry. */
  function SingleQuery(v: View, entries: seq<Entry>, capacity: nat, p: Progress): (Progress, Option<Entry>) {
    if p.exhausted then (p, None)
    else
      var scan := Enumerate(v, entries, p.cursor, 1, capacity);
      (Progress(p.merged, scan.exhausted, if scan.exhausted then None else scan.last),
       if scan.out == [] then None else Some(scan.out[0]))
  }

  /** One query for as many entries as fit. */
  function MergedQuery(v: View, entries: seq<Entry>, capacity: nat, p: Progress): (Progress, seq<Entry>) {
    if p.merged then (p, [])
    else
      var scan := Enumerate(v, entries, None, 0, capacity);
      (p.(merged := scan.exhausted), scan.out)
  }

  /** One query for a single entry, both layers together: an entry of the lower directory that is neither whited out
      nor covered is answered itself; for a hidden one, and when there are no more, the upper half answers. */
  function Query(v: View, covered: Name -> bool, fromLower: Option<Entry>, entries: seq<Entry>, capacity: nat,
                 p: Progress)
    : (Progress, Option<Entry>)
  {
    if fromLower.Some? && !covered(fromLower.value.name) then
      (p, if fromLower.value.size <= capacity then fromLower else None)
    else SingleQuery(v, entries, capacity, p)
  }

  /** What passes of a batch of lower entries: the ones not hidden, up to one that does not fit; and whether a hidden
      one came by. */
  function EmitLower(covered: Name -> bool, batch: seq<Entry>, capacity: nat, used: nat): (seq<Entry>, bool) {
    if batch == [] then ([], false)
    else if covered(batch[0].name) then (EmitLower(covered, batch[1..], capacity, used).0, true)
    else if used + batch[0].size > capacity then ([], false)
    else
      var (out, filtered) := EmitLower(covered, batch[1..], capacity, used + batch[0].size);
      ([batch[0]] + out, filtered)
  }

  /** One query for as many entries as fit, both layers together: what passes of the lower batch is answered itself;
      for a batch that is hidden altogether, and when there are no more, the upper half answers. */
  function BatchQuery(v: View, covered: Name -> bool, fromLower: Option<seq<Entry>>, entries: seq<Entry>, capacity: nat,
                      p: Progress): (Progress, seq<Entry>)
  {
    match fromLower
    case None => MergedQuery(v, entries, capacity, p)
    case Some(batch) =>
      var (out, filtered) := EmitLower(covered, batch, capacity, 0);
      if out == [] && filtered then MergedQuery(v, entries, capacity, p) else (p, out)
  }

  /** The driver's record for an open directory. */
  class DirState {
    var upperMerged: bool
    var upperSingleExhausted: bool
    var upperSingleCursor: Option<Name>

    function State(): Progress
      reads this
    {
      Progress(upperMerged, upperSingleExhausted, upperSingleCursor)
    }

    constructor ()
      ensures State() == RESET
    {
      upperMerged, upperSingleExhausted, upperSingleCursor := false, false, None;
    }

    /** AgentFsResetDirState */
    method Reset()
      modifies this
      ensures State() == RESET
    {
      upperMerged := false;
      upperSingleExhausted := false;
      upperSingleCursor := None;
    }

    /** AgentFsUpdateDirUpperSingleCursor */
    method UpdateCursor(cursor: Option<Name>, exhausted: bool)
      modifies this
      ensures State() == Progress(old(upperMerged), exhausted, if exhausted then None else cursor)
    {
      upperSingleCursor := None;
      upperSingleExhausted := exhausted;
      if !exhausted && cursor.Some? {
        upperSingleCursor := cursor;
      }
    }

    /** The upper part of a query that returns a single entry */
    method QuerySingle(v: View, batches: seq<seq<Entry>>, capacity: nat) returns (emitted: Option<Entry>)
      modifies this
      ensures (State(), emitted) == SingleQuery(v, Flatten(batches), capacity, old(State()))
    {
      if upperSingleExhausted {
        return None;
      }
      var scan := AppendUpperDirectoryEntries(v, batches, upperSingleCursor, 1, capacity);
      UpdateCursor(scan.last, scan.exhausted);
      return if scan.out == [] then None else Some(scan.out[0]);
    }

    /** AgentFsPostDirectoryControl for a query that returns a single entry */
    method PostQuery(v: View, covered: Name -> bool, fromLower: Option<Entry>, batches: seq<seq<Entry>>, capacity: nat)
      returns (answer: Option<Entry>)
      modifies this
      ensures (State(), answer) == Query(v, covered, fromLower, Flatten(batches), capacity, old(State()))
    {
      answer := None;
      var lowerEntryFiltered := false;
      if fromLower.Some? {
        if covered(fromLower.value.name) {
          lowerEntryFiltered := true;
        } else if fromLower.value.size <= capacity {
          answer := fromLower;
        }
      }
      if (fromLower.None? || lowerEntryFiltered) && !upperSingleExhausted {
        answer := QuerySingle(v, batches, capacity);
      }
    }

    /** AgentFsPostDirectoryControl for a query that returns as many entries as fit */
    method PostQueryAll(v: View, covered: Name -> bool, fromLower: Option<seq<Entry>>, batches: seq<seq<Entry>>,
                        capacity: nat)
      returns (answer: seq<Entry>)
      modifies this
      ensures (State(), answer) == BatchQuery(v, covered, fromLower, Flatten(batches), capacity, old(State()))
    {
      answer := [];
      var lowerEntryFiltered := false;
      if fromLower.Some? {
        answer, lowerEntryFiltered := FilterLower(covered, fromLower.value, capacity);
      }
      if fromLower.None? || (lowerEntryFiltered && answer == []) {
        answer := QueryMerged(v, batches, capacity);
      }
    }

    /** The upper part of a query that returns as many entries as fit */
    method QueryMerged(v: View, batches: seq<seq<Entry>>, capacity: nat) returns (emitted: seq<Entry>)
      modifies this
      ensures (State(), emitted) == MergedQuery(v, Flatten(batches), capacity, old(State()))
    {
      if upperMerged {
        return [];
      }
      var scan := AppendUpperDirectoryEntries(v, batches, None, 0, capacity);
      if scan.exhausted {
        upperMerged := true;
      }
      return scan.out;
    }
  }

  /** What is put out of the rest of a batch */
  ghost function LowerRest(covered: Name -> bool, rest: seq<Entry>, capacity: nat, out: seq<Entry>, used: nat,
                           filtered: bool)
    : (seq<Entry>, bool)
  {
    var (more, hidden) := EmitLower(covered, rest, capacity, used);
    (out + more, filtered || hidden)
  }

  lemma LowerStep(covered: Name -> bool, first: Entry, rest: seq<Entry>, capacity: nat, out: seq<Entry>, used: nat,
                  filtered: bool)
    ensures LowerRest(covered, [first] + rest, capacity, out, used, filtered) ==
              if covered(first.name) then LowerRest(covered, rest, capacity, out, used, true)
              else if used + first.size > capacity then (out, filtered)
              else LowerRest(covered, rest, capacity, out + [first], used + first.size, filtered)
  {
    assert ([first] + rest)[1..] == rest && out + [] == out;
    if !covered(first.name) && used + first.size <= capacity {
      var more := EmitLower(covered, rest, capacity, used + first.size).0;
      assert out + ([first] + more) == out + [first] + more;
    }
  }

  /** The loop over a batch of lower entries */
  method FilterLower(covered: Name -> bool, batch: seq<Entry>, capacity: nat) returns (out: seq<Entry>, filtered: bool)
    ensures (out, filtered) == EmitLower(covered, batch, capacity, 0)
  {
    out, filtered := [], false;
    var used: nat := 0;
    var i := 0;
    assert batch[0..] == batch;
    assert [] + EmitLower(covered, batch, capacity, 0).0 == EmitLower(covered, batch, capacity, 0).0;
    while i < |batch|
      invariant 0 <= i <= |batch|
      invariant EmitLower(covered, batch, capacity, 0) == LowerRest(covered, batch[i..], capacity, out, used, filtered)
    {
      assert batch[i..] == [batch[i]] + batch[i + 1..];
      LowerStep(covered, batch[i], batch[i + 1..], capacity, out, used, filtered);
      if covered(batch[i].name) {
        filtered := true;
      } else {
        if used + batch[i].size > capacity {
          return;
        }
        used := used + batch[i].size;
        out := out + [batch[i]];
      }
      i := i + 1;
    }
    assert batch[i..] == [] && out + [] == out;
  }

  // ----- whole enumerations

  /** The entries no whiteout hides, in listing order. */
  function Shown(v: View, entries: seq<Entry>): seq<Entry> {
    if entries == [] then []
    else (if v.hidden(entries[0].name) then [] else [entries[0]]) + Shown(v, entries[1..])
  }

  ghost predicate DistinctNames(v: View, entries: seq<Entry>) {
    forall i, j :: 0 <= i < j < |entries| ==> !v.Same(entries[i].name, entries[j].name)
  }

  ghost predicate AllFit(entries: seq<Entry>, capacity: nat) {
    forall i :: 0 <= i < |entries| ==> entries[i].size <= capacity
  }

  /** The answers of `n` single-entry queries in a row. */
  function SingleQueries(v: View, entries: seq<Entry>, capacity: nat, p: Progress, n: nat): seq<Option<Entry>>
    decreases n
  {
    if n == 0 then []
    else
      var (next, answer) := SingleQuery(v, entries, capacity, p);
      [answer] + SingleQueries(v, entries, capacity, next, n - 1)
  }

  /** The first shown entry decides a single-entry scan. */
  lemma {:induction false} EmitOne(v: View, entries: seq<Entry>, capacity: nat)
    ensures var shown := Shown(v, entries);
            Emit(v, entries, 1, capacity, START) ==
              if shown == [] then START
              else if shown[0].size > capacity then START.(exhausted := false)
              else Scan([shown[0]], shown[0].size, Some(shown[0].name), false)
    decreases |entries|
  {
    if entries != [] {
      if v.hidden(entries[0].name) {
        EmitOne(v, entries[1..], capacity);
        assert Shown(v, entries) == Shown(v, entries[1..]);
      } else {
        assert Shown(v, entries)[0] == entries[0];
        assert [] + [entries[0]] == [entries[0]];
      }
    }
  }

  /** Where in the listing the `k`-th shown entry is. */
  lemma {:induction false} ShownAt(v: View, entries: seq<Entry>, k: nat) returns (j: nat)
    requires k < |Shown(v, entries)|
    ensures j < |entries| && entries[j] == Shown(v, entries)[k]
    ensures Shown(v, entries[j + 1..]) == Shown(v, entries)[k + 1..]
    decreases |entries|
  {
    var tail := entries[1..];
    if v.hidden(entries[0].name) {
      assert Shown(v, entries) == Shown(v, tail);
      j := ShownAt(v, tail, k);
      j := LaterAt(v, entries, j);
    } else if k == 0 {
      assert Shown(v, entries)[1..] == Shown(v, tail);
      j := 0;
    } else {
      DropFirst(entries[0], Shown(v, tail), k);
      j := ShownAt(v, tail, k - 1);
      j := LaterAt(v, entries, j);
    }
  }

  lemma DropFirst(first: Entry, rest: seq<Entry>, k: nat)
    requires 0 < k <= |rest|
    ensures ([first] + rest)[k] == rest[k - 1] && ([first] + rest)[k + 1..] == rest[k..]
  {
  }

  /** A position in the tail is one further in the whole listing. */
  lemma LaterAt(v: View, entries: seq<Entry>, j: nat) returns (next: nat)
    requires j + 1 < |entries|
    ensures next == j + 1 && entries[next] == entries[1..][j] && entries[next + 1..] == entries[1..][j + 1..]
  {
    next := j + 1;
  }

  /** Names are distinct, so the cursor's name is found where it was put out. */
  lemma {:induction false} BehindAt(v: View, entries: seq<Entry>, j: nat)
    requires DistinctNames(v, entries) && j < |entries|
    ensures Behind(v, entries, entries[j].name) == entries[j + 1..]
    decreases |entries|
  {
    if j > 0 {
      assert !v.Same(entries[0].name, entries[j].name);
      var tail := entries[1..];
      assert forall i :: 0 <= i < |tail| ==> tail[i] == entries[i + 1];
      BehindAt(v, tail, j - 1);
      assert tail[j..] == entries[j + 1..];
    }
  }

  /** Behind the cursor lies exactly what has not been put out. */
  lemma BehindShown(v: View, entries: seq<Entry>, k: nat)
    requires DistinctNames(v, entries) && k < |Shown(v, entries)|
    ensures Shown(v, Behind(v, entries, Shown(v, entries)[k].name)) == Shown(v, entries)[k + 1..]
  {
    var j := ShownAt(v, entries, k);
    BehindAt(v, entries, j);
  }

  /** Where a run of single-entry queries stands after `k` entries have been put out. */
  function After(v: View, entries: seq<Entry>, k: nat): Progress
    requires k <= |Shown(v, entries)|
  {
    Progress(false, false, if k == 0 then None else Some(Shown(v, entries)[k - 1].name))
  }

  lemma QueryAfter(v: View, entries: seq<Entry>, capacity: nat, k: nat)
    requires DistinctNames(v, entries) && k <= |Shown(v, entries)|
    ensures var shown := Shown(v, entries);
            SingleQuery(v, entries, capacity, After(v, entries, k)) ==
              if k == |shown| then (Progress(false, true, None), None)
              else if shown[k].size > capacity then (RESET, None)
              else (After(v, entries, k + 1), Some(shown[k]))
  {
    var from := FromCursor(v, entries, After(v, entries, k).cursor);
    if k > 0 {
      BehindShown(v, entries, k - 1);
    }
    assert Shown(v, from) == Shown(v, entries)[k..];
    EmitOne(v, from, capacity);
  }

  /** What the queries of an enumeration should answer: each shown entry in turn, then nothing. */
  function Answers(shown: seq<Entry>, k: nat, n: nat): seq<Option<Entry>> {
    seq(n, i requires 0 <= i < n => if k + i < |shown| then Some(shown[k + i]) else None)
  }

  lemma {:induction false} StaysExhausted(v: View, entries: seq<Entry>, capacity: nat, p: Progress, shown: seq<Entry>,
                                          n: nat)
    requires p.exhausted
    ensures SingleQueries(v, entries, capacity, p, n) == Answers(shown, |shown|, n)
    decreases n
  {
    if n > 0 {
      StaysExhausted(v, entries, capacity, p, shown, n - 1);
    }
  }

  lemma QueriesCons(v: View, entries: seq<Entry>, capacity: nat, p: Progress, n: nat, next: Progress,
                    answer: Option<Entry>)
    requires n > 0 && SingleQuery(v, entries, capacity, p) == (next, answer)
    ensures SingleQueries(v, entries, capacity, p, n) == [answer] + SingleQueries(v, entries, capacity, next, n - 1)
  {
  }

  lemma AnswersCons(shown: seq<Entry>, k: nat, n: nat)
    requires n > 0
    ensures k < |shown| ==> Answers(shown, k, n) == [Some(shown[k])] + Answers(shown, k + 1, n - 1)
    ensures k == |shown| ==> Answers(shown, k, n) == [None] + Answers(shown, k, n - 1)
  {
  }

  lemma {:induction false} QueriesFrom(v: View, entries: seq<Entry>, capacity: nat, k: nat, n: nat)
    requires DistinctNames(v, entries) && k <= |Shown(v, entries)| && AllFit(Shown(v, entries), capacity)
    ensures SingleQueries(v, entries, capacity, After(v, entries, k), n) == Answers(Shown(v, entries), k, n)
    decreases n
  {
    if n > 0 {
      var shown := Shown(v, entries);
      QueryAfter(v, entries, capacity, k);
      AnswersCons(shown, k, n);
      if k == |shown| {
        QueriesCons(v, entries, capacity, After(v, entries, k), n, Progress(false, true, None), None);
        StaysExhausted(v, entries, capacity, Progress(false, true, None), shown, n - 1);
      } else {
        QueriesCons(v, entries, capacity, After(v, entries, k), n, After(v, entries, k + 1), Some(shown[k]));
        QueriesFrom(v, entries, capacity, k + 1, n - 1);
      }
    }
  }

  lemma {:induction false} QueriesUntilMisfit(v: View, entries: seq<Entry>, capacity: nat, k: nat, m: nat, n: nat)
    requires DistinctNames(v, entries) && k <= m < |Shown(v, entries)| && m - k < n
    requires Shown(v, entries)[m].size > capacity && AllFit(Shown(v, entries)[k..m], capacity)
    ensures |SingleQueries(v, entries, capacity, After(v, entries, k), n)| == n
    ensures SingleQueries(v, entries, capacity, After(v, entries, k), n)[m - k] == None
    decreases m - k
  {
    var shown := Shown(v, entries);
    QueryAfter(v, entries, capacity, k);
    if k < m {
      assert shown[k..m][0] == shown[k] && shown[k + 1..m] == shown[k..m][1..];
      QueriesCons(v, entries, capacity, After(v, entries, k), n, After(v, entries, k + 1), Some(shown[k]));
      QueriesUntilMisfit(v, entries, capacity, k + 1, m, n - 1);
    } else {
      QueriesCons(v, entries, capacity, After(v, entries, k), n, RESET, None);
      AnswerCount(v, entries, capacity, RESET, n - 1);
    }
  }

  lemma {:induction false} AnswerCount(v: View, entries: seq<Entry>, capacity: nat, p: Progress, n: nat)
    ensures |SingleQueries(v, entries, capacity, p, n)| == n
    decreases n
  {
    if n > 0 {
      AnswerCount(v, entries, capacity, SingleQuery(v, entries, capacity, p).0, n - 1);
    }
  }

  /** From a reset state, over a listing with distinct names, single-entry queries answer each shown entry
      exactly once in listing order and from then on nothing, exactly if every shown entry fits the buffer. */
  lemma SingleEnumeration(v: View, entries: seq<Entry>, capacity: nat, n: nat)
    requires DistinctNames(v, entries) && n >= |Shown(v, entries)|
    ensures SingleQueries(v, entries, capacity, RESET, n) == Answers(Shown(v, entries), 0, n) <==>
            AllFit(Shown(v, entries), capacity)
  {
    var shown := Shown(v, entries);
    assert After(v, entries, 0) == RESET;
    if AllFit(shown, capacity) {
      QueriesFrom(v, entries, capacity, 0, n);
    } else {
      var m := FirstMisfit(shown, capacity);
      QueriesUntilMisfit(v, entries, capacity, 0, m, n);
      assert Answers(shown, 0, n)[m] == Some(shown[m]);
    }
  }

  lemma {:induction false} FirstMisfit(entries: seq<Entry>, capacity: nat) returns (m: nat)
    requires !AllFit(entries, capacity)
    ensures m < |entries| && entries[m].size > capacity && AllFit(entries[..m], capacity)
    ensures entries[0..m] == entries[..m]
    decreases |entries|
  {
    if entries[0].size > capacity {
      m := 0;
    } else {
      assert forall i :: 0 <= i < |entries[1..]| ==> entries[1..][i] == entries[i + 1];
      var k := FirstMisfit(entries[1..], capacity);
      m := k + 1;
      forall i | 0 <= i < |entries[..m]| ensures entries[..m][i].size <= capacity {
        if i > 0 {
          assert entries[..m][i] == entries[1..][..k][i - 1];
        }
      }
    }
  }

  /** A query that meets an entry too large for the buffer answers nothing and forgets the cursor: the
      enumeration starts over. */
  lemma MisfitRestarts(v: View, entries: seq<Entry>, capacity: nat, k: nat)
    requires DistinctNames(v, entries) && k < |Shown(v, entries)| && Shown(v, entries)[k].size > capacity
    ensures SingleQuery(v, entries, capacity, After(v, entries, k)) == (RESET, None)
  {
    QueryAfter(v, entries, capacity, k);
  }

  // ----- the merged form

  function TotalSize(entries: seq<Entry>): nat {
    if entries == [] then 0 else entries[0].size + TotalSize(entries[1..])
  }

  lemma {:induction false} EmitAll(v: View, entries: seq<Entry>, capacity: nat, scan: Scan)
    ensures var result := Emit(v, entries, 0, capacity, scan);
            if scan.used + TotalSize(Shown(v, entries)) <= capacity
            then result.out == scan.out + Shown(v, entries) && result.exhausted == scan.exhausted
            else !result.exhausted || !(scan.used <= capacity)
    decreases |entries|
  {
    if entries == [] {
      assert scan.out + [] == scan.out;
    } else if v.hidden(entries[0].name) {
      assert Shown(v, entries) == Shown(v, entries[1..]);
      EmitAll(v, entries[1..], capacity, scan);
    } else {
      ShownFirst(v, entries);
      var next := Scan(scan.out + [entries[0]], scan.used + entries[0].size, Some(entries[0].name), scan.exhausted);
      EmitAll(v, entries[1..], capacity, next);
      OneMoreShown(scan.out, entries[0], Shown(v, entries[1..]));
    }
  }

  lemma OneMoreShown(out: seq<Entry>, first: Entry, rest: seq<Entry>)
    ensures out + [first] + rest == out + ([first] + rest)
  {
  }

  /** From a reset state, a query for all entries answers every shown entry and the next one nothing, exactly
      if they fit the buffer together; otherwise every further query repeats the first answer. */
  lemma MergedEnumeration(v: View, entries: seq<Entry>, capacity: nat)
    ensures var (after, answer) := MergedQuery(v, entries, capacity, RESET);
            if TotalSize(Shown(v, entries)) <= capacity
            then answer == Shown(v, entries) && after.merged && MergedQuery(v, entries, capacity, after) == (after, [])
            else after == RESET && MergedQuery(v, entries, capacity, after) == (after, answer)
  {
    EmitAll(v, entries, capacity, START);
    assert [] + Shown(v, entries) == Shown(v, entries);
  }

  // ----- both layers, entry by entry

  /** How a query is answered: the state before it and the lower entry that comes with it, if any */
  type Asking = (Progress, Option<Entry>) -> (Progress, Option<Entry>)

  function HeadOf(lower: seq<Entry>): Option<Entry> {
    if lower == [] then None else Some(lower[0])
  }

  /** What is left of a listing behind its first entry */
  function TailOf(lower: seq<Entry>): seq<Entry> {
    if lower == [] then [] else lower[1..]
  }

  /** The answers up to the first query that has none */
  function Asked(ask: Asking, lower: seq<Entry>, p: Progress, n: nat): seq<Entry>
    decreases n
  {
    if n == 0 then []
    else
      var (next, answer) := ask(p, HeadOf(lower));
      if answer.None? then [] else [answer.value] + Asked(ask, TailOf(lower), next, n - 1)
  }

  function Asker(v: View, covered: Name -> bool, entries: seq<Entry>, capacity: nat): Asking {
    (p, e) => Query(v, covered, e, entries, capacity, p)
  }

  /** What a caller gets who asks for single entries until there are no more. */
  function Listing(v: View, covered: Name -> bool, lower: seq<Entry>, entries: seq<Entry>, capacity: nat, p: Progress,
                   n: nat)
    : seq<Entry>
  {
    Asked(Asker(v, covered, entries, capacity), lower, p, n)
  }

  /** The lower entries in order, each hidden one replaced by the next upper one, and the remaining upper ones behind;
      up to an entry that does not fit, or a hidden one with no upper entry left. */
  function Merged(covered: Name -> bool, lower: seq<Entry>, shown: seq<Entry>, capacity: nat): seq<Entry>
    decreases |lower| + |shown|
  {
    if lower != [] && !covered(lower[0].name) then
      if lower[0].size > capacity then [] else [lower[0]] + Merged(covered, lower[1..], shown, capacity)
    else if shown == [] || shown[0].size > capacity then []
    else [shown[0]] + Merged(covered, TailOf(lower), shown[1..], capacity)
  }

  /** The lower entry is to be answered itself. */
  predicate Shows(covered: Name -> bool, e: Option<Entry>) {
    e.Some? && !covered(e.value.name)
  }

  /** At `at(k)`, `k` upper entries have been answered: an entry that shows is answered itself, else the next upper one
      is; and nothing, if there is none or it does not fit. */
  ghost predicate Answering(ask: Asking, covered: Name -> bool, shown: seq<Entry>, at: nat -> Progress, capacity: nat) {
    && (forall k: nat, e :: k <= |shown| && Shows(covered, e) ==>
          ask(at(k), e) == (at(k), if e.value.size <= capacity then e else None))
    && (forall k: nat, e :: k < |shown| && !Shows(covered, e) && shown[k].size <= capacity ==>
          ask(at(k), e) == (at(k + 1), Some(shown[k])))
    && (forall k: nat, e :: k <= |shown| && !Shows(covered, e) && (k < |shown| ==> shown[k].size > capacity) ==>
          ask(at(k), e).1 == None)
  }

  lemma {:induction false} AskedFrom(ask: Asking, covered: Name -> bool, lower: seq<Entry>, shown: seq<Entry>,
                                     at: nat -> Progress, capacity: nat, k: nat, n: nat)
    requires Answering(ask, covered, shown, at, capacity) && k <= |shown| && n > |lower| + |shown| - k
    ensures Asked(ask, lower, at(k), n) == Merged(covered, lower, shown[k..], capacity)
    decreases n
  {
    if Shows(covered, HeadOf(lower)) {
      if lower[0].size <= capacity {
        AskedFrom(ask, covered, lower[1..], shown, at, capacity, k, n - 1);
      }
    } else if k < |shown| && shown[k].size <= capacity {
      assert shown[k..][0] == shown[k] && shown[k..][1..] == shown[k + 1..];
      AskedFrom(ask, covered, TailOf(lower), shown, at, capacity, k + 1, n - 1);
    }
  }

  lemma ListingIsMerged(v: View, covered: Name -> bool, lower: seq<Entry>, entries: seq<Entry>, capacity: nat, n: nat)
    requires DistinctNames(v, entries) && n > |lower| + |Shown(v, entries)|
    ensures Listing(v, covered, lower, entries, capacity, RESET, n)
            == Merged(covered, lower, Shown(v, entries), capacity)
  {
    var shown, at, ask := Shown(v, entries), States(v, entries), Asker(v, covered, entries, capacity);
    forall k: nat, e | k <= |shown| ensures AnswersRight(ask(at(k), e), covered, shown, at, capacity, k, e) {
      AnswerAt(v, covered, entries, capacity, k, e);
    }
    AllAnswerRight(ask, covered, shown, at, capacity);
    assert shown[0..] == shown;
    AskedFrom(ask, covered, lower, shown, at, capacity, 0, n);
  }

  /** The states of an enumeration */
  function States(v: View, entries: seq<Entry>): nat -> Progress {
    (k: nat) => if k <= |Shown(v, entries)| then After(v, entries, k) else RESET
  }

  ghost predicate AnswersRight(answer: (Progress, Option<Entry>), covered: Name -> bool, shown: seq<Entry>,
                               at: nat -> Progress, capacity: nat, k: nat, e: Option<Entry>)
    requires k <= |shown|
  {
    if Shows(covered, e) then answer == (at(k), if e.value.size <= capacity then e else None)
    else if k < |shown| && shown[k].size <= capacity then answer == (at(k + 1), Some(shown[k]))
    else answer.1 == None
  }

  lemma AnswerAt(v: View, covered: Name -> bool, entries: seq<Entry>, capacity: nat, k: nat, e: Option<Entry>)
    requires DistinctNames(v, entries) && k <= |Shown(v, entries)|
    ensures AnswersRight(Asker(v, covered, entries, capacity)(States(v, entries)(k), e), covered, Shown(v, entries),
                         States(v, entries), capacity, k, e)
  {
    QueryAfter(v, entries, capacity, k);
  }

  lemma AllAnswerRight(ask: Asking, covered: Name -> bool, shown: seq<Entry>, at: nat -> Progress, capacity: nat)
    requires forall k: nat, e :: k <= |shown| ==> AnswersRight(ask(at(k), e), covered, shown, at, capacity, k, e)
    ensures Answering(ask, covered, shown, at, capacity)
  {
  }

  /** The lower entries that are not hidden. */
  function Uncovered(covered: Name -> bool, lower: seq<Entry>): seq<Entry> {
    if lower == [] then []
    else (if covered(lower[0].name) then [] else [lower[0]]) + Uncovered(covered, lower[1..])
  }

  /** How many of the first `i` lower entries are hidden. */
  function HiddenBefore(covered: Name -> bool, lower: seq<Entry>, i: nat): nat
    requires i <= |lower|
  {
    if i == 0 then 0 else HiddenBefore(covered, lower[1..], i - 1) + if covered(lower[0].name) then 1 else 0
  }

  /** Lower entry `i` is hidden and the upper ones have all been answered in place of earlier ones. */
  predicate RunsDry(covered: Name -> bool, lower: seq<Entry>, shown: nat, i: nat)
    requires i < |lower|
  {
    covered(lower[i].name) && HiddenBefore(covered, lower, i) >= shown
  }

  /** An entry that is not hidden comes after more hidden ones than there are upper ones to take their places. */
  ghost predicate CutShort(covered: Name -> bool, lower: seq<Entry>, shown: nat) {
    exists i, j :: 0 <= i < j < |lower| && RunsDry(covered, lower, shown, i) && !covered(lower[j].name)
  }

  lemma CutShortAtFirst(covered: Name -> bool, lower: seq<Entry>)
    requires lower != [] && covered(lower[0].name)
    ensures CutShort(covered, lower, 0) <==> Uncovered(covered, lower[1..]) != []
  {
    SomeUncovered(covered, lower[1..]);
    if Uncovered(covered, lower[1..]) != [] {
      var j :| 0 <= j < |lower[1..]| && !covered(lower[1..][j].name);
      assert RunsDry(covered, lower, 0, 0) && lower[j + 1] == lower[1..][j];
    }
    if CutShort(covered, lower, 0) {
      var i, j :| 0 <= i < j < |lower| && RunsDry(covered, lower, 0, i) && !covered(lower[j].name);
      assert lower[1..][j - 1] == lower[j];
    }
  }

  lemma {:induction false} SomeUncovered(covered: Name -> bool, lower: seq<Entry>)
    ensures Uncovered(covered, lower) != [] <==> exists j :: 0 <= j < |lower| && !covered(lower[j].name)
    decreases |lower|
  {
    if lower != [] {
      SomeUncovered(covered, lower[1..]);
      if covered(lower[0].name) && (exists j :: 0 <= j < |lower| && !covered(lower[j].name)) {
        var j :| 0 <= j < |lower| && !covered(lower[j].name);
        assert lower[1..][j - 1] == lower[j];
      }
    }
  }

  lemma CutShortLater(covered: Name -> bool, lower: seq<Entry>, shown: nat)
    requires lower != [] && (covered(lower[0].name) ==> shown > 0)
    ensures CutShort(covered, lower, shown) <==>
            CutShort(covered, lower[1..], if covered(lower[0].name) then shown - 1 else shown)
  {
    var rest := if covered(lower[0].name) then shown - 1 else shown;
    if CutShort(covered, lower, shown) {
      var i, j :| 0 <= i < j < |lower| && RunsDry(covered, lower, shown, i) && !covered(lower[j].name);
      assert i > 0;
      assert RunsDry(covered, lower[1..], rest, i - 1) && lower[1..][j - 1] == lower[j];
    }
    if CutShort(covered, lower[1..], rest) {
      var i, j :| 0 <= i < j < |lower[1..]| && RunsDry(covered, lower[1..], rest, i) && !covered(lower[1..][j].name);
      assert RunsDry(covered, lower, shown, i + 1) && lower[j + 1] == lower[1..][j];
    }
  }

  /** Every entry of both layers that should be seen, once. */
  ghost predicate Complete(listing: seq<Entry>, covered: Name -> bool, lower: seq<Entry>, shown: seq<Entry>) {
    multiset(listing) == multiset(Uncovered(covered, lower)) + multiset(shown)
  }

  /** With one more entry in front of the listing and in one of the layers, nothing changes. */
  lemma CompleteWithOneMore(first: Entry, listing: seq<Entry>, kept: seq<Entry>, shown: seq<Entry>)
    ensures multiset([first] + listing) == multiset([first] + kept) + multiset(shown) <==>
            multiset(listing) == multiset(kept) + multiset(shown)
    ensures multiset([first] + listing) == multiset(shown) + multiset([first] + kept) <==>
            multiset(listing) == multiset(shown) + multiset(kept)
  {
    var one := multiset{first};
    assert multiset([first] + listing) == one + multiset(listing);
    assert multiset([first] + kept) + multiset(shown) == one + (multiset(kept) + multiset(shown));
    assert multiset(shown) + multiset([first] + kept) == one + (multiset(kept) + multiset(shown));
    CancelOne(first, multiset(listing), multiset(kept) + multiset(shown));
  }

  lemma CancelOne(x: Entry, a: multiset<Entry>, b: multiset<Entry>)
    ensures multiset{x} + a == multiset{x} + b <==> a == b
  {
    if multiset{x} + a == multiset{x} + b {
      forall e ensures a[e] == b[e] {
        assert (multiset{x} + a)[e] == (multiset{x} + b)[e];
      }
    }
  }

  lemma NothingIsIncomplete(first: Entry, kept: seq<Entry>, shown: seq<Entry>)
    ensures multiset{} != multiset([first] + kept) + multiset(shown)
    ensures multiset{} != multiset(shown) + multiset([first] + kept)
  {
    assert ([first] + kept)[0] == first;
    assert first in multiset([first] + kept);
  }

  lemma AllFitTail(entries: seq<Entry>, capacity: nat)
    requires entries != []
    ensures AllFit(entries, capacity) <==> entries[0].size <= capacity && AllFit(entries[1..], capacity)
  {
    if entries[0].size <= capacity && AllFit(entries[1..], capacity) {
      forall i | 0 <= i < |entries| ensures entries[i].size <= capacity {
        assert i > 0 ==> entries[i] == entries[1..][i - 1];
      }
    }
    if AllFit(entries, capacity) {
      forall i | 0 <= i < |entries[1..]| ensures entries[1..][i].size <= capacity {
        assert entries[1..][i] == entries[i + 1];
      }
    }
  }

  lemma {:induction false} MergedIsComplete(covered: Name -> bool, lower: seq<Entry>, shown: seq<Entry>, capacity: nat)
    ensures Complete(Merged(covered, lower, shown, capacity), covered, lower, shown) <==>
            AllFit(Uncovered(covered, lower), capacity) && AllFit(shown, capacity) && !CutShort(covered, lower, |shown|)
    decreases |lower| + |shown|
  {
    if lower != [] && !covered(lower[0].name) {
      KeepFirst(covered, lower, shown, capacity);
    } else if shown != [] {
      PutUpper(covered, lower, shown, capacity);
    } else if lower != [] {
      CutShortAtFirst(covered, lower);
      assert Uncovered(covered, lower) == Uncovered(covered, lower[1..]);
      NoneMissing(Uncovered(covered, lower));
    }
  }

  lemma NoneMissing(entries: seq<Entry>)
    ensures multiset(entries) == multiset{} <==> entries == []
  {
    if entries != [] {
      assert entries[0] in multiset(entries);
    }
  }

  lemma KeepFirst(covered: Name -> bool, lower: seq<Entry>, shown: seq<Entry>, capacity: nat)
    requires lower != [] && !covered(lower[0].name)
    ensures Complete(Merged(covered, lower, shown, capacity), covered, lower, shown) <==>
            AllFit(Uncovered(covered, lower), capacity) && AllFit(shown, capacity) && !CutShort(covered, lower, |shown|)
    decreases |lower| + |shown|, 0
  {
    var tail := lower[1..];
    var rest := Uncovered(covered, tail);
    assert Uncovered(covered, lower) == [lower[0]] + rest;
    assert ([lower[0]] + rest)[1..] == rest;
    AllFitTail(Uncovered(covered, lower), capacity);
    if lower[0].size <= capacity {
      MergedIsComplete(covered, tail, shown, capacity);
      CutShortLater(covered, lower, |shown|);
      CompleteWithOneMore(lower[0], Merged(covered, tail, shown, capacity), rest, shown);
    } else {
      NothingIsIncomplete(lower[0], rest, shown);
    }
  }

  lemma PutUpper(covered: Name -> bool, lower: seq<Entry>, shown: seq<Entry>, capacity: nat)
    requires shown != [] && (lower != [] ==> covered(lower[0].name))
    ensures Complete(Merged(covered, lower, shown, capacity), covered, lower, shown) <==>
            AllFit(Uncovered(covered, lower), capacity) && AllFit(shown, capacity) && !CutShort(covered, lower, |shown|)
    decreases |lower| + |shown|, 0
  {
    var tail := if lower == [] then [] else lower[1..];
    assert shown == [shown[0]] + shown[1..];
    assert Uncovered(covered, lower) == Uncovered(covered, tail);
    AllFitTail(shown, capacity);
    if shown[0].size <= capacity {
      MergedIsComplete(covered, tail, shown[1..], capacity);
      if lower != [] {
        CutShortLater(covered, lower, |shown|);
      }
      CompleteWithOneMore(shown[0], Merged(covered, tail, shown[1..], capacity), shown[1..], Uncovered(covered, lower));
    } else {
      NothingIsIncomplete(shown[0], shown[1..], Uncovered(covered, lower));
    }
  }

  /** From a reset state, over an upper listing with distinct names, asking for single entries until there are no more
      yields every lower entry that is not hidden and every shown upper entry exactly once, exactly if they all fit
      the buffer and no lower entry that is not hidden comes after more hidden ones than there are shown upper ones. */
  lemma SingleListing(v: View, covered: Name -> bool, lower: seq<Entry>, entries: seq<Entry>, capacity: nat, n: nat)
    requires DistinctNames(v, entries) && n > |lower| + |Shown(v, entries)|
    ensures var shown := Shown(v, entries);
            Complete(Listing(v, covered, lower, entries, capacity, RESET, n), covered, lower, shown) <==>
            AllFit(Uncovered(covered, lower), capacity) && AllFit(shown, capacity) && !CutShort(covered, lower, |shown|)
  {
    var shown := Shown(v, entries);
    ListingIsMerged(v, covered, lower, entries, capacity, n);
    MergedIsComplete(covered, lower, shown, capacity);
  }

  /** The shortest listing that is cut short: with nothing in the upper layer, a deleted entry ends it. */
  lemma DeletedEntryEndsListing(v: View, covered: Name -> bool, a: Entry, b: Entry, capacity: nat, n: nat)
    requires covered(a.name) && !covered(b.name) && n > 2
    ensures Listing(v, covered, [a, b], [], capacity, RESET, n) == []
    ensures !Complete([], covered, [a, b], Shown(v, []))
  {
    var lower := [a, b];
    SingleListing(v, covered, lower, [], capacity, n);
    assert RunsDry(covered, lower, 0, 0) && !covered(lower[1].name);
  }

  // ----- both layers, as many entries as fit

  /** What a caller gets who asks for as many entries as fit until there are no more. */
  function BatchListing(v: View, covered: Name -> bool, lower: seq<seq<Entry>>, entries: seq<Entry>, capacity: nat,
                        p: Progress, n: nat): seq<Entry>
    decreases n
  {
    if n == 0 then []
    else
      var (next, answer) := BatchQuery(v, covered, if lower == [] then None else Some(lower[0]), entries, capacity, p);
      if answer == [] then []
      else answer + BatchListing(v, covered, if lower == [] then [] else lower[1..], entries, capacity, next, n - 1)
  }

  /** What passes of the batches, with the upper entries in place of the first hidden batch or behind; up to a batch
      of which nothing passes when there are no upper entries left. */
  function Joined(covered: Name -> bool, lower: seq<seq<Entry>>, shown: seq<Entry>, capacity: nat): seq<Entry> {
    if lower == [] then shown
    else
      var (out, filtered) := EmitLower(covered, lower[0], capacity, 0);
      if out != [] then out + Joined(covered, lower[1..], shown, capacity)
      else if !filtered || shown == [] then []
      else shown + Joined(covered, lower[1..], [], capacity)
  }

  /** The upper entries still to come */
  function Pending(p: Progress, shown: seq<Entry>): seq<Entry> {
    if p.merged then [] else shown
  }

  lemma UpperAnswers(v: View, entries: seq<Entry>, capacity: nat, p: Progress)
    requires TotalSize(Shown(v, entries)) <= capacity
    ensures MergedQuery(v, entries, capacity, p) == (p.(merged := true), Pending(p, Shown(v, entries)))
  {
    EmitAll(v, entries, capacity, START);
    assert [] + Shown(v, entries) == Shown(v, entries);
  }

  lemma {:induction false} BatchListingFrom(v: View, covered: Name -> bool, lower: seq<seq<Entry>>, entries: seq<Entry>,
                                            capacity: nat, p: Progress, n: nat)
    requires TotalSize(Shown(v, entries)) <= capacity && n > |lower| + 1
    ensures BatchListing(v, covered, lower, entries, capacity, p, n)
            == Joined(covered, lower, Pending(p, Shown(v, entries)), capacity)
    decreases |lower|
  {
    var shown := Shown(v, entries);
    UpperAnswers(v, entries, capacity, p);
    var (next, answer) := BatchQuery(v, covered, if lower == [] then None else Some(lower[0]), entries, capacity, p);
    if lower == [] {
      if answer != [] {
        UpperAnswers(v, entries, capacity, next);
        assert BatchListing(v, covered, [], entries, capacity, next, n - 1) == [];
        assert answer + [] == answer;
      }
    } else if answer != [] {
      BatchListingFrom(v, covered, lower[1..], entries, capacity, next, n - 1);
    }
  }

  lemma {:induction false} EmitLowerMeans(covered: Name -> bool, batch: seq<Entry>, capacity: nat, used: nat)
    requires used <= capacity
    ensures var (out, filtered), all := EmitLower(covered, batch, capacity, used), Uncovered(covered, batch);
            && |out| <= |all| && out == all[..|out|]
            && (out == all <==> used + TotalSize(all) <= capacity)
            && (all == [] ==> (filtered <==> batch != []))
    decreases |batch|
  {
    if batch != [] {
      var all := Uncovered(covered, batch);
      if covered(batch[0].name) {
        EmitLowerMeans(covered, batch[1..], capacity, used);
        assert all == Uncovered(covered, batch[1..]);
      } else {
        assert all == [batch[0]] + Uncovered(covered, batch[1..]);
        assert all[1..] == Uncovered(covered, batch[1..]);
        if used + batch[0].size <= capacity {
          EmitLowerMeans(covered, batch[1..], capacity, used + batch[0].size);
        }
      }
    }
  }

  /** What shows of the whole lower listing */
  function UncoveredOf(covered: Name -> bool, lower: seq<seq<Entry>>): seq<Entry> {
    if lower == [] then [] else Uncovered(covered, lower[0]) + UncoveredOf(covered, lower[1..])
  }

  ghost predicate BatchesFit(covered: Name -> bool, lower: seq<seq<Entry>>, capacity: nat) {
    forall i :: 0 <= i < |lower| ==> TotalSize(Uncovered(covered, lower[i])) <= capacity
  }

  /** Nothing of the batch shows. */
  predicate AllHidden(covered: Name -> bool, batch: seq<Entry>) {
    Uncovered(covered, batch) == []
  }

  /** How many of the first `i` batches are hidden altogether. */
  function HiddenBatches(covered: Name -> bool, lower: seq<seq<Entry>>, i: nat): nat
    requires i <= |lower|
  {
    if i == 0 then 0 else HiddenBatches(covered, lower[1..], i - 1) + if AllHidden(covered, lower[0]) then 1 else 0
  }

  /** A hidden batch for which no upper entries are left comes before one of which something shows. */
  ghost predicate BatchesCutShort(covered: Name -> bool, lower: seq<seq<Entry>>, spare: nat) {
    exists i, j :: 0 <= i < j < |lower| && DryAt(covered, lower, spare, i) && !AllHidden(covered, lower[j])
  }

  predicate DryAt(covered: Name -> bool, lower: seq<seq<Entry>>, spare: nat, i: nat)
    requires i < |lower|
  {
    AllHidden(covered, lower[i]) && HiddenBatches(covered, lower, i) >= spare
  }

  lemma BatchesCutLater(covered: Name -> bool, lower: seq<seq<Entry>>, spare: nat)
    requires lower != [] && (AllHidden(covered, lower[0]) ==> spare > 0)
    ensures BatchesCutShort(covered, lower, spare) <==>
            BatchesCutShort(covered, lower[1..], if AllHidden(covered, lower[0]) then spare - 1 else spare)
  {
    var rest := if AllHidden(covered, lower[0]) then spare - 1 else spare;
    if BatchesCutShort(covered, lower, spare) {
      var i, j :| 0 <= i < j < |lower| && DryAt(covered, lower, spare, i) && !AllHidden(covered, lower[j]);
      assert i > 0;
      assert DryAt(covered, lower[1..], rest, i - 1) && lower[1..][j - 1] == lower[j];
    }
    if BatchesCutShort(covered, lower[1..], rest) {
      var i, j :| 0 <= i < j < |lower[1..]| && DryAt(covered, lower[1..], rest, i)
          && !AllHidden(covered, lower[1..][j]);
      assert DryAt(covered, lower, spare, i + 1) && lower[j + 1] == lower[1..][j];
    }
  }

  lemma BatchesCutAtFirst(covered: Name -> bool, lower: seq<seq<Entry>>)
    requires lower != [] && AllHidden(covered, lower[0])
    ensures BatchesCutShort(covered, lower, 0) <==> UncoveredOf(covered, lower[1..]) != []
  {
    SomethingShows(covered, lower[1..]);
    if UncoveredOf(covered, lower[1..]) != [] {
      var j :| 0 <= j < |lower[1..]| && !AllHidden(covered, lower[1..][j]);
      assert DryAt(covered, lower, 0, 0) && lower[j + 1] == lower[1..][j];
    }
    if BatchesCutShort(covered, lower, 0) {
      var i, j :| 0 <= i < j < |lower| && DryAt(covered, lower, 0, i) && !AllHidden(covered, lower[j]);
      assert lower[1..][j - 1] == lower[j];
    }
  }

  lemma {:induction false} SomethingShows(covered: Name -> bool, lower: seq<seq<Entry>>)
    ensures UncoveredOf(covered, lower) != [] <==> exists j :: 0 <= j < |lower| && !AllHidden(covered, lower[j])
    decreases |lower|
  {
    if lower != [] {
      SomethingShows(covered, lower[1..]);
      if UncoveredOf(covered, lower[1..]) != [] {
        var j :| 0 <= j < |lower[1..]| && !AllHidden(covered, lower[1..][j]);
        assert lower[j + 1] == lower[1..][j];
      }
      if AllHidden(covered, lower[0]) && exists j :: 0 <= j < |lower| && !AllHidden(covered, lower[j]) {
        var j :| 0 <= j < |lower| && !AllHidden(covered, lower[j]);
        assert lower[1..][j - 1] == lower[j];
      }
    }
  }

  lemma BatchesFitTail(covered: Name -> bool, lower: seq<seq<Entry>>, capacity: nat)
    requires lower != []
    ensures BatchesFit(covered, lower, capacity) <==>
            TotalSize(Uncovered(covered, lower[0])) <= capacity && BatchesFit(covered, lower[1..], capacity)
  {
    forall i | 0 <= i < |lower[1..]| ensures lower[1..][i] == lower[i + 1] {
    }
    forall i | 0 < i < |lower| ensures lower[i] == lower[1..][i - 1] {
    }
  }

  lemma {:induction false} NothingShowsFits(covered: Name -> bool, lower: seq<seq<Entry>>, capacity: nat)
    requires UncoveredOf(covered, lower) == []
    ensures BatchesFit(covered, lower, capacity)
    decreases |lower|
  {
    if lower != [] {
      NothingShowsFits(covered, lower[1..], capacity);
      BatchesFitTail(covered, lower, capacity);
    }
  }

  /** How many lookups of the upper layer can still stand in for a hidden batch */
  function Spare(shown: seq<Entry>): nat {
    if shown == [] then 0 else 1
  }

  /** The listing is never longer than it should be; as long, and with the same entries, exactly if `good`. */
  ghost predicate ListedRight(listing: seq<Entry>, all: seq<Entry>, shown: seq<Entry>, good: bool) {
    && |listing| <= |all| + |shown|
    && (|listing| == |all| + |shown| <==> good)
    && (good ==> multiset(listing) == multiset(all) + multiset(shown))
  }

  /** The listing is never longer than it should be, and exactly as long, and then with the same entries, if nothing is
      too large and it is not cut short. */
  lemma {:induction false} JoinedIsComplete(covered: Name -> bool, lower: seq<seq<Entry>>, shown: seq<Entry>,
                                            capacity: nat)
    requires forall batch :: batch in lower ==> batch != []
    ensures ListedRight(Joined(covered, lower, shown, capacity), UncoveredOf(covered, lower), shown,
                        BatchesFit(covered, lower, capacity) && !BatchesCutShort(covered, lower, Spare(shown)))
    decreases |lower|
  {
    if lower != [] {
      assert lower[0] in lower && forall batch :: batch in lower[1..] ==> batch in lower;
      EmitLowerMeans(covered, lower[0], capacity, 0);
      BatchesFitTail(covered, lower, capacity);
      var out := EmitLower(covered, lower[0], capacity, 0).0;
      if out != [] {
        BatchPasses(covered, lower, shown, capacity, out);
      } else if AllHidden(covered, lower[0]) {
        BatchHidden(covered, lower, shown, capacity);
      } else {
        NothingPasses(covered, lower, shown, capacity);
      }
    }
  }

  lemma BatchPasses(covered: Name -> bool, lower: seq<seq<Entry>>, shown: seq<Entry>, capacity: nat, out: seq<Entry>)
    requires lower != [] && forall batch :: batch in lower[1..] ==> batch != []
    requires out == EmitLower(covered, lower[0], capacity, 0).0 != []
    ensures ListedRight(Joined(covered, lower, shown, capacity), UncoveredOf(covered, lower), shown,
                        BatchesFit(covered, lower, capacity) && !BatchesCutShort(covered, lower, Spare(shown)))
    decreases |lower|, 0
  {
    EmitLowerMeans(covered, lower[0], capacity, 0);
    BatchesFitTail(covered, lower, capacity);
    BatchesCutLater(covered, lower, Spare(shown));
    JoinedIsComplete(covered, lower[1..], shown, capacity);
    var unhidden, rest := Uncovered(covered, lower[0]), Joined(covered, lower[1..], shown, capacity);
    assert |out| == |unhidden| ==> out == unhidden;
    assert multiset(out + rest) == multiset(out) + multiset(rest);
    assert multiset(unhidden + UncoveredOf(covered, lower[1..]))
           == multiset(unhidden) + multiset(UncoveredOf(covered, lower[1..]));
  }

  lemma BatchHidden(covered: Name -> bool, lower: seq<seq<Entry>>, shown: seq<Entry>, capacity: nat)
    requires lower != [] && lower[0] != [] && forall batch :: batch in lower[1..] ==> batch != []
    requires AllHidden(covered, lower[0])
    ensures ListedRight(Joined(covered, lower, shown, capacity), UncoveredOf(covered, lower), shown,
                        BatchesFit(covered, lower, capacity) && !BatchesCutShort(covered, lower, Spare(shown)))
    decreases |lower|, 0
  {
    HiddenBatchAnswers(covered, lower, shown, capacity);
    BatchesFitTail(covered, lower, capacity);
    if shown == [] {
      BatchesCutAtFirst(covered, lower);
      NothingMore(covered, lower[1..], capacity);
    } else {
      BatchesCutLater(covered, lower, 1);
      JoinedIsComplete(covered, lower[1..], [], capacity);
      StandIn(shown, Joined(covered, lower[1..], [], capacity), UncoveredOf(covered, lower[1..]),
              BatchesFit(covered, lower[1..], capacity) && !BatchesCutShort(covered, lower[1..], 0));
    }
  }

  lemma NothingMore(covered: Name -> bool, lower: seq<seq<Entry>>, capacity: nat)
    ensures ListedRight([], UncoveredOf(covered, lower), [],
                        BatchesFit(covered, lower, capacity) && UncoveredOf(covered, lower) == [])
  {
    if UncoveredOf(covered, lower) == [] {
      NothingShowsFits(covered, lower, capacity);
    }
  }

  lemma StandIn(shown: seq<Entry>, rest: seq<Entry>, later: seq<Entry>, good: bool)
    requires ListedRight(rest, later, [], good)
    ensures ListedRight(shown + rest, later, shown, good)
  {
    assert multiset(shown + rest) == multiset(shown) + multiset(rest);
  }

  lemma HiddenBatchAnswers(covered: Name -> bool, lower: seq<seq<Entry>>, shown: seq<Entry>, capacity: nat)
    requires lower != [] && lower[0] != [] && AllHidden(covered, lower[0])
    ensures Joined(covered, lower, shown, capacity) ==
              if shown == [] then [] else shown + Joined(covered, lower[1..], [], capacity)
    ensures UncoveredOf(covered, lower) == UncoveredOf(covered, lower[1..])
    ensures TotalSize(Uncovered(covered, lower[0])) == 0
  {
    EmitLowerMeans(covered, lower[0], capacity, 0);
    assert [] + UncoveredOf(covered, lower[1..]) == UncoveredOf(covered, lower[1..]);
  }

  lemma NothingPasses(covered: Name -> bool, lower: seq<seq<Entry>>, shown: seq<Entry>, capacity: nat)
    requires lower != [] && forall batch :: batch in lower[1..] ==> batch != []
    requires !AllHidden(covered, lower[0]) && EmitLower(covered, lower[0], capacity, 0).0 == []
    ensures |Joined(covered, lower, shown, capacity)| < |UncoveredOf(covered, lower)| + |shown|
    ensures !BatchesFit(covered, lower, capacity)
    decreases |lower|, 0
  {
    EmitLowerMeans(covered, lower[0], capacity, 0);
    BatchesFitTail(covered, lower, capacity);
    JoinedIsComplete(covered, lower[1..], [], capacity);
  }

  // ----- upper entries that do not fit together

  /** What a scan has put out when it stopped at an entry: some of what shows, from the beginning */
  ghost predicate Stopped(result: Scan, out: seq<Entry>, shown: seq<Entry>) {
    && !result.exhausted && |out| <= |result.out| < |out| + |shown|
    && result.out == out + shown[..|result.out| - |out|]
  }

  /** The scan stops at an entry and has put out the ones before it. */
  lemma {:induction false} EmitStops(v: View, entries: seq<Entry>, capacity: nat, scan: Scan)
    requires scan.used <= capacity < scan.used + TotalSize(Shown(v, entries))
    ensures Stopped(Emit(v, entries, 0, capacity, scan), scan.out, Shown(v, entries))
    decreases |entries|
  {
    var shown := Shown(v, entries);
    if v.hidden(entries[0].name) {
      assert shown == Shown(v, entries[1..]);
      EmitStops(v, entries[1..], capacity, scan);
    } else {
      ShownFirst(v, entries);
      if scan.used + entries[0].size <= capacity {
        var next := Scan(scan.out + [entries[0]], scan.used + entries[0].size, Some(entries[0].name), scan.exhausted);
        EmitStops(v, entries[1..], capacity, next);
        StoppedLater(Emit(v, entries[1..], 0, capacity, next), scan.out, entries[0], shown[1..]);
      } else {
        assert scan.out + shown[..0] == scan.out;
      }
    }
  }

  lemma ShownFirst(v: View, entries: seq<Entry>)
    requires entries != [] && !v.hidden(entries[0].name)
    ensures var shown := Shown(v, entries);
            shown != [] && shown[0] == entries[0] && shown[1..] == Shown(v, entries[1..])
                && shown == [shown[0]] + shown[1..]
  {
  }

  lemma StoppedLater(result: Scan, out: seq<Entry>, first: Entry, rest: seq<Entry>)
    requires Stopped(result, out + [first], rest)
    ensures Stopped(result, out, [first] + rest)
  {
    var k := |result.out| - |out|;
    assert out + [first] + rest[..k - 1] == out + ([first] + rest)[..k];
  }

  /** Shown entries have distinct names as well. */
  lemma {:induction false} ShownOnce(v: View, entries: seq<Entry>, k: nat)
    requires DistinctNames(v, entries) && k < |Shown(v, entries)|
    ensures Shown(v, entries)[k] !in Shown(v, entries)[..k]
    decreases |entries|
  {
    var tail, shown := entries[1..], Shown(v, entries);
    assert forall i :: 0 <= i < |tail| ==> tail[i] == entries[i + 1];
    if v.hidden(entries[0].name) {
      assert shown == Shown(v, tail);
      ShownOnce(v, tail, k);
    } else if k > 0 {
      assert shown[1..] == Shown(v, tail) && shown[k] == shown[1..][k - 1];
      ShownOnce(v, tail, k - 1);
      var j := ShownAt(v, tail, k - 1);
      assert !v.Same(entries[0].name, entries[j + 1].name);
      assert shown[..k] == [shown[0]] + shown[1..][..k - 1];
    }
  }

  /** Every query of the upper half answers the same, and never the entry that does not fit. */
  lemma {:induction false} NeverListed(v: View, covered: Name -> bool, lower: seq<seq<Entry>>, entries: seq<Entry>,
                                       capacity: nat, n: nat, x: Entry)
    requires MergedQuery(v, entries, capacity, RESET).0 == RESET && x !in MergedQuery(v, entries, capacity, RESET).1
    ensures multiset(BatchListing(v, covered, lower, entries, capacity, RESET, n))[x] <=
            multiset(UncoveredOf(covered, lower))[x]
    decreases n
  {
    if n > 0 {
      var (next, answer) := BatchQuery(v, covered, if lower == [] then None
                                       else Some(lower[0]), entries, capacity, RESET);
      var tail := if lower == [] then [] else lower[1..];
      NeverListed(v, covered, tail, entries, capacity, n - 1, x);
      var rest := BatchListing(v, covered, tail, entries, capacity, RESET, n - 1);
      assert multiset(answer + rest) == multiset(answer) + multiset(rest);
      if lower != [] {
        var unhidden := Uncovered(covered, lower[0]);
        assert multiset(unhidden + UncoveredOf(covered, tail))
               == multiset(unhidden) + multiset(UncoveredOf(covered, tail));
        EmitLowerMeans(covered, lower[0], capacity, 0);
        PrefixCounts(EmitLower(covered, lower[0], capacity, 0).0, unhidden, x);
      }
    }
  }

  lemma PrefixCounts(out: seq<Entry>, all: seq<Entry>, x: Entry)
    requires |out| <= |all| && out == all[..|out|]
    ensures multiset(out)[x] <= multiset(all)[x]
  {
    assert all == out + all[|out|..];
  }

  /** From a reset state, over an upper listing with distinct names and lower batches of at least one entry, asking for
      as many entries as fit until there are no more yields every entry of both layers that should be seen exactly
      once, exactly if what shows of each batch, and what shows of the upper layer, fits the buffer, and no batch of
      which something shows comes after a hidden one that the upper entries cannot stand in for any more. */
  lemma AllListing(v: View, covered: Name -> bool, lower: seq<seq<Entry>>, entries: seq<Entry>, capacity: nat, n: nat)
    requires DistinctNames(v, entries) && n > |lower| + 1 && forall batch :: batch in lower ==> batch != []
    ensures var shown := Shown(v, entries);
            multiset(BatchListing(v, covered, lower, entries, capacity, RESET, n))
              == multiset(UncoveredOf(covered, lower)) + multiset(shown)
            <==>
            && BatchesFit(covered, lower, capacity) && TotalSize(shown) <= capacity
            && !BatchesCutShort(covered, lower, Spare(shown))
  {
    var shown, listing := Shown(v, entries), BatchListing(v, covered, lower, entries, capacity, RESET, n);
    if TotalSize(shown) <= capacity {
      BatchListingFrom(v, covered, lower, entries, capacity, RESET, n);
      JoinedIsComplete(covered, lower, shown, capacity);
      SameLength(listing, UncoveredOf(covered, lower), shown);
    } else {
      var answer := Emit(v, entries, 0, capacity, START).out;
      EmitStops(v, entries, capacity, START);
      assert answer == shown[..|answer|];
      ShownOnce(v, entries, |answer|);
      NeverListed(v, covered, lower, entries, capacity, n, shown[|answer|]);
      assert shown[|answer|] in multiset(shown);
    }
  }

  lemma SameLength(listing: seq<Entry>, all: seq<Entry>, shown: seq<Entry>)
    ensures multiset(listing) == multiset(all) + multiset(shown) ==> |listing| == |all| + |shown|
  {
    assert |multiset(listing)| == |listing| && |multiset(all) + multiset(shown)| == |all| + |shown|;
  }

  /** The upper entries stand in for one hidden batch only: the second one ends the listing. */
  lemma SecondHiddenBatchEndsListing(v: View, covered: Name -> bool, a: Entry, b: Entry, c: Entry, u: Entry,
                                     capacity: nat, n: nat)
    requires covered(a.name) && covered(b.name) && !covered(c.name) && !v.hidden(u.name) && u.size <= capacity && n > 4
    ensures BatchListing(v, covered, [[a], [b], [c]], [u], capacity, RESET, n) == [u]
    ensures UncoveredOf(covered, [[a], [b], [c]]) == [c]
  {
    assert [u][1..] == [] && Shown(v, [u]) == [u];
    assert TotalSize([u]) == u.size;
    BatchListingFrom(v, covered, [[a], [b], [c]], [u], capacity, RESET, n);
    ThreeBatches(covered, a, b, c, u, capacity);
  }

  lemma ThreeBatches(covered: Name -> bool, a: Entry, b: Entry, c: Entry, u: Entry, capacity: nat)
    requires covered(a.name) && covered(b.name) && !covered(c.name)
    ensures Joined(covered, [[a], [b], [c]], [u], capacity) == [u]
    ensures UncoveredOf(covered, [[a], [b], [c]]) == [c]
  {
    var none: seq<Entry> := [];
    var empty: seq<seq<Entry>> := [];
    assert [a][1..] == none && [b][1..] == none && [c][1..] == none;
    assert Uncovered(covered, [a]) == [] && Uncovered(covered, [b]) == [] && Uncovered(covered, [c]) == [c];
    assert [[a], [b], [c]][1..] == [[b], [c]] && [[b], [c]][1..] == [[c]] && [[c]][1..] == empty;
    HiddenBatchAnswers(covered, [[a], [b], [c]], [u], capacity);
    HiddenBatchAnswers(covered, [[b], [c]], [], capacity);
    assert UncoveredOf(covered, [[c]]) == [c] + UncoveredOf(covered, empty);
    assert [c] + none == [c] && [u] + none == [u];
  }
}

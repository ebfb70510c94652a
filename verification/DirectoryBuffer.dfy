/** The buffer of a directory query: a chain of records linked by their byte distance to the next one, the
    NextEntryOffset of section 2.4 of [MS-FSCC], and its compaction when entries are hidden. */
module DirectoryBuffer {
  import opened Replies

  type Byte = b: int | 0 <= b < 256

  const U32: nat := 0x1_0000_0000

  /** Where an information class keeps the length and the text of the file name in a record. */
  datatype Layout = Layout(nameLength: nat, name: nat)

  /** The link comes first, the name length before the name. */
  predicate LayoutOk(l: Layout) {
    4 <= l.nameLength && l.nameLength + 4 <= l.name && l.name < 0x1000
  }

  // ----- 32-bit numbers in memory

  /** The number a little-endian byte string stands for. */
  function Value(bytes: seq<Byte>): nat {
    if bytes == [] then 0 else (bytes[0] as int) + 0x100 * Value(bytes[1..])
  }

  function Read32(s: seq<Byte>, off: nat): nat
    requires off + 4 <= |s|
  {
    Value(s[off..off + 4])
  }

  function Bytes32(v: nat): seq<Byte>
    requires v < U32
  {
    var v1 := v / 0x100;
    var v2 := v1 / 0x100;
    [v % 0x100, v1 % 0x100, v2 % 0x100, v2 / 0x100]
  }

  lemma ValueOfBytes32(v: nat)
    requires v < U32
    ensures Value(Bytes32(v)) == v
  {
    var b := Bytes32(v);
    assert b[1..][1..][1..][1..] == [];
    assert Value(b[1..][1..][1..]) == b[3];
    assert Value(b[1..][1..]) == b[2] + 0x100 * b[3] as int;
  }

  ghost function LittleEndian(a: int, b: int, c: int, d: int): int {
    a + 0x100 * b + 0x1_0000 * c + 0x100_0000 * d
  }

  /** The lowest byte comes first. */
  lemma Read32Means(s: seq<Byte>, off: nat)
    requires off + 4 <= |s|
    ensures Read32(s, off) == LittleEndian(s[off], s[off + 1], s[off + 2], s[off + 3])
  {
    var b := s[off..off + 4];
    assert b[1..][1..][1..][1..] == [];
    assert Value(b[1..][1..][1..]) == b[3];
    assert Value(b[1..][1..]) == b[2] + 0x100 * b[3] as int;
    assert Value(b[1..]) == b[1] + 0x100 * Value(b[1..][1..]);
  }

  /** Unsigned 32-bit addition. */
  function Add32(a: nat, b: nat): nat {
    (a + b) % U32
  }

  /** AgentFsAlign8 */
  function Align8(v: nat): nat {
    Add32(v, 7) / 8 * 8
  }

  lemma Align8Rounds(v: nat)
    requires v + 8 <= U32
    ensures v <= Align8(v) < v + 8 && Align8(v) % 8 == 0
    ensures v % 8 == 0 ==> Align8(v) == v
  {
  }

  // ----- chains of records

  function NameLength(s: seq<Byte>, off: nat, l: Layout): nat
    requires LayoutOk(l) && off + l.name <= |s|
  {
    Read32(s, off + l.nameLength)
  }

  /** A chain that ends with its last record inside `end`: every link is a multiple of 8 that passes the record
      it leaves, and the last link is zero. */
  predicate ChainOk(s: seq<Byte>, off: nat, end: nat, l: Layout)
    requires LayoutOk(l) && end <= |s|
    decreases end - off
  {
    off % 8 == 0 && off + l.name <= end && off + l.name + NameLength(s, off, l) <= end &&
    var next := Read32(s, off);
    next == 0 ||
      (next % 8 == 0 && l.name + NameLength(s, off, l) <= next && off + next < end && ChainOk(s, off + next, end, l))
  }

  /** A record without its link: everything up to the end of the name. */
  type Record = seq<Byte>

  function RecordAt(s: seq<Byte>, off: nat, l: Layout): Record
    requires LayoutOk(l) && off + l.name <= |s| && off + l.name + NameLength(s, off, l) <= |s|
  {
    s[off + 4..off + l.name + NameLength(s, off, l)]
  }

  /** The records a reader of the chain comes by. */
  function Records(s: seq<Byte>, off: nat, end: nat, l: Layout): seq<Record>
    requires LayoutOk(l) && end <= |s| && ChainOk(s, off, end, l)
    decreases end - off
  {
    var next := Read32(s, off);
    [RecordAt(s, off, l)] + if next == 0 then [] else Records(s, off + next, end, l)
  }

  /** Where the last record of the chain ends, rounded up. */
  function LastEnd(s: seq<Byte>, off: nat, end: nat, l: Layout): nat
    requires LayoutOk(l) && end <= |s| && ChainOk(s, off, end, l)
    decreases end - off
  {
    var next := Read32(s, off);
    if next == 0 then off + Align8(EntryRecordSize(s, off, end - off, l)) else LastEnd(s, off + next, end, l)
  }

  /** The file name in a record. */
  function NameOf(r: Record, l: Layout): seq<Byte>
    requires LayoutOk(l) && |r| >= l.name - 4
  {
    r[l.name - 4..]
  }

  /** A record is the bytes behind its link, and its name is the last of them, as many as the length says. */
  lemma RecordMeans(s: seq<Byte>, off: nat, l: Layout, length: nat)
    requires LayoutOk(l) && off + l.name + length <= |s|
    requires var at := off + l.nameLength;
             length == LittleEndian(s[at], s[at + 1], s[at + 2], s[at + 3])
    ensures NameLength(s, off, l) == length
    ensures RecordAt(s, off, l) == s[off + 4..off + l.name + length]
    ensures NameOf(RecordAt(s, off, l), l) == s[off + l.name..off + l.name + length]
  {
    Read32Means(s, off + l.nameLength);
  }

  /** The records whose names are not hidden, in order. */
  function Kept(rs: seq<Record>, l: Layout, hidden: seq<Byte> -> bool): seq<Record>
    requires LayoutOk(l)
  {
    if rs == [] then []
    else (if |rs[0]| >= l.name - 4 && hidden(NameOf(rs[0], l)) then [] else [rs[0]]) + Kept(rs[1..], l, hidden)
  }

  lemma {:induction false} KeptSnoc(rs: seq<Record>, r: Record, l: Layout, hidden: seq<Byte> -> bool)
    requires LayoutOk(l)
    ensures Kept(rs + [r], l, hidden) == Kept(rs, l, hidden) + Kept([r], l, hidden)
    decreases |rs|
  {
    if rs == [] {
      assert rs + [r] == [r];
    } else {
      assert (rs + [r])[1..] == rs[1..] + [r];
      KeptSnoc(rs[1..], r, l, hidden);
    }
  }

  // ----- a chain under construction

  /** From `off` on, the links lead through records `rs` to the last one at `last`, all inside `end`. */
  predicate Linked(s: seq<Byte>, off: nat, last: nat, end: nat, l: Layout, rs: seq<Record>)
    requires LayoutOk(l) && end <= |s|
    decreases end - off
  {
    off % 8 == 0 && off + l.name <= end && off + l.name + NameLength(s, off, l) <= end &&
    rs != [] && rs[0] == RecordAt(s, off, l) &&
    var next := Read32(s, off);
    if off == last then next == 0 && |rs| == 1
    else next > 0 && next % 8 == 0 && l.name + NameLength(s, off, l) <= next && off + next <= last
         && Linked(s, off + next, last, end, l, rs[1..])
  }

  lemma {:induction false} LinkedIsChain(s: seq<Byte>, off: nat, last: nat, end: nat, l: Layout, rs: seq<Record>)
    requires LayoutOk(l) && end <= |s| && last < end && Linked(s, off, last, end, l, rs)
    ensures ChainOk(s, off, end, l) && Records(s, off, end, l) == rs
    decreases end - off
  {
    if off == last {
      assert rs == [rs[0]];
      RecordsAtLast(s, off, end, l);
    } else {
      LinkedIsChain(s, off + Read32(s, off), last, end, l, rs[1..]);
      RecordsBefore(s, off, off + Read32(s, off), end, l);
      assert rs == [rs[0]] + rs[1..];
    }
  }

  /** How appending a record changes the buffer: the old last link now reaches to the new record, which holds
      the given one and a zero link; everything else below the old end is as it was. */
  predicate Appended(s: seq<Byte>, t: seq<Byte>, last: nat, end: nat, newEnd: nat, l: Layout, r: Record)
    requires LayoutOk(l) && newEnd <= |t|
  {
    && |s| == |t| && last + 4 <= end <= newEnd
    && end % 8 == 0 && end + l.name <= newEnd && end + l.name + NameLength(t, end, l) <= newEnd
    && (forall k :: 0 <= k < end && !(last <= k < last + 4) ==> t[k] == s[k])
    && Read32(t, last) == end - last
    && Read32(t, end) == 0 && RecordAt(t, end, l) == r
  }

  /** A stretch that avoids the patched link is as it was. */
  lemma StretchSame(s: seq<Byte>, t: seq<Byte>, last: nat, end: nat, a: nat, b: nat)
    requires |s| == |t| && end <= |s| && a <= b <= end && (b <= last || last + 4 <= a)
    requires forall k :: 0 <= k < end && !(last <= k < last + 4) ==> t[k] == s[k]
    ensures t[a..b] == s[a..b]
  {
  }

  /** The record at an earlier or at the last place of the chain has not changed. */
  lemma RecordSame(s: seq<Byte>, t: seq<Byte>, off: nat, last: nat, end: nat, l: Layout)
    requires LayoutOk(l) && |s| == |t| && off <= last && last + 4 <= end <= |s| && off + l.name <= end
    requires off + l.name + NameLength(s, off, l) <= if off == last then end else last
    requires forall k :: 0 <= k < end && !(last <= k < last + 4) ==> t[k] == s[k]
    ensures NameLength(t, off, l) == NameLength(s, off, l) && RecordAt(t, off, l) == RecordAt(s, off, l)
  {
    StretchSame(s, t, last, end, off + l.nameLength, off + l.nameLength + 4);
    StretchSame(s, t, last, end, off + 4, off + l.name + NameLength(s, off, l));
  }

  lemma MultiplesOf8(a: nat, b: nat)
    requires a % 8 == 0 && b % 8 == 0
    ensures (a + b) % 8 == 0 && (a <= b ==> (b - a) % 8 == 0)
  {
  }

  /** The last record gets a successor. */
  lemma LinkedLast(s: seq<Byte>, t: seq<Byte>, last: nat, end: nat, newEnd: nat, l: Layout, rs: seq<Record>, r: Record)
    requires LayoutOk(l) && end <= |s| && newEnd <= |t|
    requires Linked(s, last, last, end, l, rs) && Appended(s, t, last, end, newEnd, l, r)
    ensures Linked(t, last, end, newEnd, l, rs + [r])
  {
    RecordSame(s, t, last, last, end, l);
    MultiplesOf8(last, end);
    var longer := rs + [r];
    assert longer[0] == rs[0] && longer[1..] == [r];
    assert Linked(t, end, end, newEnd, l, [r]);
    assert last + Read32(t, last) == end;
  }

  /** A record before the last one keeps its successor. */
  lemma LinkedBefore(s: seq<Byte>, t: seq<Byte>, off: nat, last: nat, end: nat, newEnd: nat, l: Layout,
                     rs: seq<Record>, longer: seq<Record>)
    requires LayoutOk(l) && end <= newEnd <= |s| && |t| == |s| && last + 4 <= end
    requires off < last && Linked(s, off, last, end, l, rs)
    requires forall k :: 0 <= k < end && !(last <= k < last + 4) ==> t[k] == s[k]
    requires Linked(t, off + Read32(s, off), end, newEnd, l, longer)
    ensures Linked(t, off, end, newEnd, l, [rs[0]] + longer)
  {
    RecordSame(s, t, off, last, end, l);
    StretchSame(s, t, last, end, off, off + 4);
    var all := [rs[0]] + longer;
    assert all[0] == rs[0] && all[1..] == longer;
  }

  lemma {:induction false} LinkedSnoc(s: seq<Byte>, t: seq<Byte>, off: nat, last: nat, end: nat, newEnd: nat, l: Layout,
                                      rs: seq<Record>, r: Record)
    requires LayoutOk(l) && end <= |s| && newEnd <= |t|
    requires Linked(s, off, last, end, l, rs) && Appended(s, t, last, end, newEnd, l, r)
    ensures Linked(t, off, end, newEnd, l, rs + [r])
    decreases end - off
  {
    if off == last {
      LinkedLast(s, t, last, end, newEnd, l, rs, r);
    } else {
      LinkedSnoc(s, t, off + Read32(s, off), last, end, newEnd, l, rs[1..], r);
      LinkedBefore(s, t, off, last, end, newEnd, l, rs, rs[1..] + [r]);
      assert [rs[0]] + (rs[1..] + [r]) == rs + [r];
    }
  }

  // ----- the driver's routines

  function RecordSize(next: nat, content: nat, remaining: nat): nat {
    if next != 0 && next <= remaining then next
    else if Align8(content) <= remaining then Align8(content)
    else remaining
  }

  /** AgentFsEntryRecordSize */
  function EntryRecordSize(s: seq<Byte>, off: nat, remaining: nat, l: Layout): nat
    requires LayoutOk(l) && off + l.name <= |s|
  {
    RecordSize(Read32(s, off), Add32(l.name, NameLength(s, off, l)), remaining)
  }

  /** In a well-formed chain the size covers the record and, rounded up, stays within the rounded-up rest. */
  lemma EntryRecordSizeFits(s: seq<Byte>, off: nat, end: nat, l: Layout)
    requires LayoutOk(l) && end <= |s| && ChainOk(s, off, end, l) && end + 8 <= U32
    ensures var size := EntryRecordSize(s, off, end - off, l);
            && size + 8 <= U32
            && l.name + NameLength(s, off, l) <= Align8(size)
            && Align8(size) % 8 == 0
            && off + Align8(size) <= Align8(end)
            && (Read32(s, off) != 0 ==> Align8(size) == Read32(s, off))
  {
    RecordSizeFits(off, end - off, Read32(s, off), l.name + NameLength(s, off, l));
  }

  lemma RecordSizeFits(off: nat, rest: nat, next: nat, content: nat)
    requires off % 8 == 0 && off + rest + 8 <= U32 && content <= rest
    requires next != 0 ==> next % 8 == 0 && content <= next <= rest
    ensures Add32(content, 0) == content
    ensures var size := RecordSize(next, content, rest);
            && size + 8 <= U32 && content <= Align8(size) && Align8(size) % 8 == 0
            && off + Align8(size) <= Align8(off + rest)
            && (next != 0 ==> Align8(size) == next)
  {
    Align8Rounds(content);
    SizeFits(off, rest, RecordSize(next, content, rest), content);
  }

  lemma SizeFits(off: nat, rest: nat, size: nat, content: nat)
    requires off % 8 == 0 && off + rest + 8 <= U32 && content <= size <= rest
    ensures content <= Align8(size) && Align8(size) % 8 == 0 && off + Align8(size) <= Align8(off + rest)
    ensures size % 8 == 0 ==> Align8(size) == size
  {
    Align8Rounds(size);
    RoundedSum(off, rest, size);
  }

  lemma RoundedSum(off: nat, rest: nat, size: nat)
    requires off % 8 == 0 && size <= rest && off + rest + 8 <= U32
    ensures off + Align8(size) <= Align8(off + rest)
  {
  }

  /** `t1` is `t0` with `size` bytes of `s` copied to `used`, their link cleared, and the last link set to them. */
  ghost predicate CopiedBehind(t0: seq<Byte>, t1: seq<Byte>, used: nat, last: nat, size: nat, s: seq<Byte>,
                               entry: nat)
  {
    && |t0| == |t1| && 4 <= size && used + size <= |t1| && entry + size <= |s|
    && (forall k :: 0 <= k < |t0| && !(used <= k < used + size) && !(used != 0 && last <= k < last + 4)
                    ==> t1[k] == t0[k])
    && (used != 0 ==> last + 4 <= used && Read32(t1, last) == used - last)
    && Read32(t1, used) == 0 && t1[used + 4..used + size] == s[entry + 4..entry + size]
  }

  /** The memory at the caller's buffer: the buffer, and whatever lies behind it. */
  function Memory(input: array<Byte>, behind: seq<Byte>): seq<Byte>
    reads input
  {
    input[..] + behind
  }

  /** AgentFsAppendDirectoryEntry: copies a record behind the last one and links the last one to it, or leaves
      everything alone if there is no room in the output. The rounded-up record may end past the buffer it is in;
      `passed` says whether the copying has read on there. */
  method AppendDirectoryEntry(output: array<Byte>, used: nat, lastOffset: nat, input: array<Byte>, behind: seq<Byte>,
                              entry: nat, entrySize: nat)
    returns (ok: bool, newUsed: nat, newLast: nat, passed: bool)
    requires input != output && output.Length < U32 && 4 <= Align8(entrySize) && used + Align8(entrySize) < U32
    requires used + Align8(entrySize) <= output.Length ==> entry + Align8(entrySize) <= input.Length + |behind|
    requires used <= output.Length && (used != 0 ==> lastOffset + 4 <= used)
    modifies output
    ensures ok <==> used + Align8(entrySize) <= output.Length
    ensures !ok ==> newUsed == used && newLast == lastOffset && output[..] == old(output[..])
    ensures ok ==> newUsed == used + Align8(entrySize) && newLast == used
    ensures ok ==> CopiedBehind(old(output[..]), output[..], used, lastOffset, Align8(entrySize), Memory(input, behind),
                                entry)
    ensures passed <==> ok && entry + Align8(entrySize) > input.Length
  {
    var size := Align8(entrySize);
    if Add32(used, size) > output.Length {
      return false, used, lastOffset, false;
    }
    if used != 0 {
      Write32(output, lastOffset, used - lastOffset);
    }
    ghost var linked := output[..];
    var memory := Memory(input, behind);
    forall k | 0 <= k < size {
      output[used + k] := memory[entry + k];
    }
    Write32(output, used, 0);
    assert used != 0 ==> output[..][lastOffset..lastOffset + 4] == linked[lastOffset..lastOffset + 4];
    return true, used + size, used, entry + size > input.Length;
  }

  method Write32(a: array<Byte>, off: nat, v: nat)
    requires off + 4 <= a.Length && v < U32
    modifies a
    ensures Read32(a[..], off) == v
    ensures forall k :: 0 <= k < a.Length && !(off <= k < off + 4) ==> a[k] == old(a[k])
  {
    var b := Bytes32(v);
    a[off], a[off + 1], a[off + 2], a[off + 3] := b[0], b[1], b[2], b[3];
    ValueOfBytes32(v);
    forall k | 0 <= k < 4 ensures a[off + k] == b[k] {
    }
    assert a[..][off..off + 4] == b;
    assert Read32(a[..], off) == Value(b);
  }

  /** A copied record reads the same at its new place. */
  lemma CopiedRecord(s: seq<Byte>, t: seq<Byte>, off: nat, at: nat, size: nat, l: Layout)
    requires LayoutOk(l) && off + size <= |s| && at + size <= |t| && l.name <= size
    requires l.name + NameLength(s, off, l) <= size && t[at + 4..at + size] == s[off + 4..off + size]
    ensures at + l.name + NameLength(t, at, l) <= at + size
    ensures NameLength(t, at, l) == NameLength(s, off, l) && RecordAt(t, at, l) == RecordAt(s, off, l)
  {
    StretchCopied(s, t, off, at, size, l.nameLength, l.nameLength + 4);
    StretchCopied(s, t, off, at, size, 4, l.name + NameLength(s, off, l));
  }

  lemma StretchCopied(s: seq<Byte>, t: seq<Byte>, off: nat, at: nat, size: nat, a: nat, b: nat)
    requires 4 <= a <= b <= size && off + size <= |s| && at + size <= |t|
    requires t[at + 4..at + size] == s[off + 4..off + size]
    ensures t[at + a..at + b] == s[off + a..off + b]
  {
    PartOfPart(t, at + 4, at + size, a - 4, b - 4);
    PartOfPart(s, off + 4, off + size, a - 4, b - 4);
  }

  lemma PartOfPart(s: seq<Byte>, from: nat, to: nat, a: nat, b: nat)
    requires from <= to <= |s| && a <= b <= to - from
    ensures s[from..to][a..b] == s[from + a..from + b]
  {
    var x, y := s[from..to][a..b], s[from + a..from + b];
    forall k | 0 <= k < |x| ensures x[k] == y[k] {
      assert x[k] == s[from..to][a + k];
    }
  }

  /** The output so far: nothing, or a chain through exactly the kept records. */
  ghost predicate Output(t: seq<Byte>, used: nat, last: nat, l: Layout, kept: seq<Record>)
    requires LayoutOk(l) && used <= |t|
  {
    used % 8 == 0 &&
    if used == 0 then kept == []
    else last + 4 <= used && Linked(t, 0, last, used, l, kept)
  }

  lemma OutputGrows(s: seq<Byte>, t: seq<Byte>, used: nat, last: nat, newUsed: nat, l: Layout, kept: seq<Record>,
                    r: Record)
    requires LayoutOk(l) && used + 4 <= newUsed <= |t| && |s| == |t| && Output(s, used, last, l, kept)
    requires newUsed % 8 == 0 && used + l.name <= newUsed && used + l.name + NameLength(t, used, l) <= newUsed
    requires forall k :: 0 <= k < used && !(last <= k < last + 4) ==> t[k] == s[k]
    requires used != 0 ==> Read32(t, last) == used - last
    requires Read32(t, used) == 0 && RecordAt(t, used, l) == r
    ensures Output(t, newUsed, used, l, kept + [r])
  {
    if used == 0 {
      assert kept + [r] == [r];
      assert Linked(t, 0, 0, newUsed, l, [r]);
    } else {
      LinkedSnoc(s, t, 0, last, used, newUsed, l, kept, r);
    }
  }

  /** Reading the chain has come by `seen` and goes on at `offset`. */
  ghost predicate ReadUpTo(s: seq<Byte>, offset: nat, end: nat, l: Layout, seen: seq<Record>)
    requires LayoutOk(l) && end <= |s|
  {
    && offset < end && ChainOk(s, offset, end, l) && ChainOk(s, 0, end, l)
    && Records(s, 0, end, l) == seen + Records(s, offset, end, l)
    && LastEnd(s, 0, end, l) == LastEnd(s, offset, end, l)
  }

  lemma ReadOn(s: seq<Byte>, offset: nat, newOffset: nat, end: nat, l: Layout, seen: seq<Record>, newSeen: seq<Record>)
    requires LayoutOk(l) && end <= |s| && ReadUpTo(s, offset, end, l, seen)
    requires newOffset == offset + Read32(s, offset) && newSeen == seen + [RecordAt(s, offset, l)]
    ensures newOffset == offset ==> Records(s, 0, end, l) == newSeen
    ensures newOffset != offset ==> ReadUpTo(s, newOffset, end, l, newSeen)
  {
    if newOffset == offset {
      RecordsAtLast(s, offset, end, l);
    } else {
      RecordsBefore(s, offset, newOffset, end, l);
      OneMore(seen, RecordAt(s, offset, l), Records(s, newOffset, end, l), newSeen);
    }
  }

  lemma RecordsAtLast(s: seq<Byte>, offset: nat, end: nat, l: Layout)
    requires LayoutOk(l) && end <= |s| && ChainOk(s, offset, end, l) && Read32(s, offset) == 0
    ensures Records(s, offset, end, l) == [RecordAt(s, offset, l)]
  {
  }

  lemma RecordsBefore(s: seq<Byte>, offset: nat, next: nat, end: nat, l: Layout)
    requires LayoutOk(l) && end <= |s| && ChainOk(s, offset, end, l) && next == offset + Read32(s, offset) != offset
    ensures next < end && ChainOk(s, next, end, l)
    ensures Records(s, offset, end, l) == [RecordAt(s, offset, l)] + Records(s, next, end, l)
    ensures LastEnd(s, offset, end, l) == LastEnd(s, next, end, l)
  {
  }

  lemma OneMore(seen: seq<Record>, r: Record, rest: seq<Record>, newSeen: seq<Record>)
    requires newSeen == seen + [r]
    ensures seen + ([r] + rest) == newSeen + rest
  {
  }

  /** The output holds what is kept of `seen`, and it is known whether anything was hidden. */
  ghost predicate Holds(t: seq<Byte>, used: nat, last: nat, l: Layout, hidden: seq<Byte> -> bool, seen: seq<Record>,
                        filtered: bool)
    requires LayoutOk(l)
  {
    && used <= |t| && Output(t, used, last, l, Kept(seen, l, hidden))
    && (filtered <==> Kept(seen, l, hidden) != seen)
  }

  lemma KeptIsNoLonger(rs: seq<Record>, l: Layout, hidden: seq<Byte> -> bool)
    requires LayoutOk(l)
    ensures |Kept(rs, l, hidden)| <= |rs|
  {
  }

  lemma KeptGrows(seen: seq<Record>, r: Record, l: Layout, hidden: seq<Byte> -> bool)
    requires LayoutOk(l) && |r| >= l.name - 4
    ensures var kept := Kept(seen, l, hidden);
            && Kept(seen + [r], l, hidden) == (if hidden(NameOf(r, l)) then kept else kept + [r])
            && (Kept(seen + [r], l, hidden) != seen + [r] <==> kept != seen || hidden(NameOf(r, l)))
  {
    var kept := Kept(seen, l, hidden);
    KeptSnoc(seen, r, l, hidden);
    KeptIsNoLonger(seen, l, hidden);
    assert kept + [] == kept;
    if kept + [r] == seen + [r] {
      assert (kept + [r])[..|kept|] == kept && (seen + [r])[..|seen|] == seen;
    }
  }

  /** Appending the record at `offset` adds it to the output chain. */
  lemma RecordAppended(s: seq<Byte>, offset: nat, end: nat, t0: seq<Byte>, t1: seq<Byte>, used: nat, last: nat,
                       l: Layout, kept: seq<Record>)
    requires LayoutOk(l) && end + 8 <= U32 && end <= |s| && ChainOk(s, offset, end, l)
    requires used <= |t0| && Output(t0, used, last, l, kept)
    requires CopiedBehind(t0, t1, used, last, Align8(EntryRecordSize(s, offset, end - offset, l)), s, offset)
    ensures Output(t1, used + Align8(EntryRecordSize(s, offset, end - offset, l)), used, l,
                   kept + [RecordAt(s, offset, l)])
  {
    var size := Align8(EntryRecordSize(s, offset, end - offset, l));
    EntryRecordSizeFits(s, offset, end, l);
    CopiedRecord(s, t1, offset, used, size, l);
    MultiplesOf8(used, size);
    OutputGrows(t0, t1, used, last, used + size, l, kept, RecordAt(s, offset, l));
  }

  /** Nothing is hidden, so that the output is as long as the input, and rounding up leaves no room for the last
      record. */
  predicate DropsLast(s: seq<Byte>, end: nat, capacity: nat, l: Layout, hidden: seq<Byte> -> bool)
    requires LayoutOk(l) && end <= |s| && ChainOk(s, 0, end, l)
  {
    Kept(Records(s, 0, end, l), l, hidden) == Records(s, 0, end, l) && LastEnd(s, 0, end, l) > capacity
  }

  /** What passes the filter: the records whose names are not hidden, without the last one if it is dropped. */
  function Passing(s: seq<Byte>, end: nat, capacity: nat, l: Layout, hidden: seq<Byte> -> bool): seq<Record>
    requires LayoutOk(l) && end <= |s| && ChainOk(s, 0, end, l)
  {
    var all := Records(s, 0, end, l);
    if DropsLast(s, end, capacity, l, hidden) then all[..|all| - 1] else Kept(all, l, hidden)
  }

  /** Copying reads past the caller's buffer: something is hidden, so that there is room for the last record in the
      output, it is not hidden itself, and rounded up it ends behind the buffer. */
  predicate ReadsPast(s: seq<Byte>, end: nat, capacity: nat, l: Layout, hidden: seq<Byte> -> bool)
    requires LayoutOk(l) && end <= |s| && ChainOk(s, 0, end, l)
  {
    var all := Records(s, 0, end, l);
    && Kept(all, l, hidden) != all && |all[|all| - 1]| >= l.name - 4 && !hidden(NameOf(all[|all| - 1], l))
    && LastEnd(s, 0, end, l) > capacity
  }

  /** The filtering loop of AgentFsPostDirectoryControl. The input is the caller's buffer, and the output as long.
      For any well-formed chain, and whatever lies behind the buffer, reading the output gives exactly the records
      whose names are not hidden, in order, up to a zero link; only where nothing is hidden and the last record,
      rounded up, is longer than the buffer, that one is missing. It says exactly when copying has read past the
      buffer. */
  method FilterEntries(input: array<Byte>, behind: seq<Byte>, inputUsed: nat, l: Layout, hidden: seq<Byte> -> bool)
    returns (output: array<Byte>, used: nat, filtered: bool, passed: bool)
    requires LayoutOk(l) && inputUsed <= input.Length && input.Length + 8 <= U32 && |behind| >= 7
    requires inputUsed > 0 ==> ChainOk(input[..], 0, inputUsed, l)
    ensures output.Length == input.Length && used <= Align8(inputUsed) && used <= input.Length
    ensures var kept := if inputUsed == 0 then [] else Passing(input[..], inputUsed, input.Length, l, hidden);
            if used == 0 then kept == []
            else ChainOk(output[..], 0, used, l) && Records(output[..], 0, used, l) == kept
    ensures inputUsed > 0 ==>
              (filtered <==> Kept(Records(input[..], 0, inputUsed, l), l, hidden)
                             != Records(input[..], 0, inputUsed, l))
    ensures passed <==> inputUsed > 0 && ReadsPast(input[..], inputUsed, input.Length, l, hidden)
  {
    output := new Byte[input.Length](_ => 0);
    used, filtered, passed := 0, false, false;
    if inputUsed == 0 {
      return;
    }
    ghost var seen;
    ghost var last;
    BufferAlone(input[..], behind, 0, inputUsed, l);
    used, last, filtered, passed, seen := FilterChain(input, behind, inputUsed, output, l, hidden);
    ChainRead(output[..], used, last, l, hidden, seen, filtered);
    SeenPasses(input[..], Memory(input, behind), inputUsed, input.Length, l, hidden, seen, filtered, passed);
  }

  /** What the loop has seen of the memory is what the buffer holds. */
  lemma SeenPasses(a: seq<Byte>, s: seq<Byte>, end: nat, capacity: nat, l: Layout, hidden: seq<Byte> -> bool,
                   seen: seq<Record>, filtered: bool, passed: bool)
    requires LayoutOk(l) && end <= |a| && end <= |s| && ChainOk(a, 0, end, l) && ChainOk(s, 0, end, l)
    requires Records(s, 0, end, l) == Records(a, 0, end, l) && LastEnd(s, 0, end, l) == LastEnd(a, 0, end, l)
    requires AllRead(s, end, capacity, l, hidden, seen, filtered, passed)
    ensures Kept(seen, l, hidden) == Passing(a, end, capacity, l, hidden)
    ensures filtered <==> Kept(Records(a, 0, end, l), l, hidden) != Records(a, 0, end, l)
    ensures passed <==> ReadsPast(a, end, capacity, l, hidden)
  {
  }

  lemma StretchAlone(a: seq<Byte>, b: seq<Byte>, i: nat, j: nat)
    requires i <= j <= |a|
    ensures (a + b)[i..j] == a[i..j]
  {
  }

  /** What lies behind the buffer plays no part in reading a record of it. */
  lemma RecordAlone(a: seq<Byte>, b: seq<Byte>, off: nat, l: Layout)
    requires LayoutOk(l) && off + l.name <= |a| && off + l.name + NameLength(a, off, l) <= |a|
    ensures Read32(a + b, off) == Read32(a, off) && NameLength(a + b, off, l) == NameLength(a, off, l)
    ensures RecordAt(a + b, off, l) == RecordAt(a, off, l)
    ensures forall rest :: EntryRecordSize(a + b, off, rest, l) == EntryRecordSize(a, off, rest, l)
  {
    StretchAlone(a, b, off, off + 4);
    StretchAlone(a, b, off + l.nameLength, off + l.nameLength + 4);
    StretchAlone(a, b, off + 4, off + l.name + NameLength(a, off, l));
  }

  /** Nor in reading the chain. */
  lemma {:induction false} BufferAlone(a: seq<Byte>, b: seq<Byte>, off: nat, end: nat, l: Layout)
    requires LayoutOk(l) && end <= |a| && ChainOk(a, off, end, l)
    ensures ChainOk(a + b, off, end, l) && Records(a + b, off, end, l) == Records(a, off, end, l)
    ensures LastEnd(a + b, off, end, l) == LastEnd(a, off, end, l)
    decreases end - off
  {
    RecordAlone(a, b, off, l);
    var next := Read32(a, off);
    if next != 0 {
      BufferAlone(a, b, off + next, end, l);
      ChainAlone(a, a + b, off, next, end, l);
    } else {
      LastAlone(a, a + b, off, end, l);
    }
  }

  lemma ChainAlone(a: seq<Byte>, s: seq<Byte>, off: nat, next: nat, end: nat, l: Layout)
    requires LayoutOk(l) && end <= |a| <= |s| && ChainOk(a, off, end, l) && ChainOk(s, off + next, end, l)
    requires next == Read32(a, off) == Read32(s, off) != 0 && NameLength(s, off, l) == NameLength(a, off, l)
    requires RecordAt(s, off, l) == RecordAt(a, off, l) && Records(s, off + next, end, l)
             == Records(a, off + next, end, l)
    requires LastEnd(s, off + next, end, l) == LastEnd(a, off + next, end, l)
    ensures ChainOk(s, off, end, l) && Records(s, off, end, l) == Records(a, off, end, l)
    ensures LastEnd(s, off, end, l) == LastEnd(a, off, end, l)
  {
  }

  lemma LastAlone(a: seq<Byte>, s: seq<Byte>, off: nat, end: nat, l: Layout)
    requires LayoutOk(l) && end <= |a| <= |s| && ChainOk(a, off, end, l)
    requires Read32(a, off) == Read32(s, off) == 0 && NameLength(s, off, l) == NameLength(a, off, l)
    requires RecordAt(s, off, l) == RecordAt(a, off, l)
    requires EntryRecordSize(s, off, end - off, l) == EntryRecordSize(a, off, end - off, l)
    ensures ChainOk(s, off, end, l) && Records(s, off, end, l) == Records(a, off, end, l)
    ensures LastEnd(s, off, end, l) == LastEnd(a, off, end, l)
  {
  }

  /** What a finished output tells its reader. */
  lemma ChainRead(t: seq<Byte>, used: nat, last: nat, l: Layout, hidden: seq<Byte> -> bool, seen: seq<Record>,
                  filtered: bool)
    requires LayoutOk(l) && Holds(t, used, last, l, hidden, seen, filtered)
    ensures used == 0 ==> Kept(seen, l, hidden) == []
    ensures used > 0 ==> ChainOk(t, 0, used, l) && Records(t, 0, used, l) == Kept(seen, l, hidden)
    ensures filtered <==> Kept(seen, l, hidden) != seen
  {
    if used > 0 {
      LinkedIsChain(t, 0, last, used, l, Kept(seen, l, hidden));
    }
  }

  /** The records seen when the loop ends */
  ghost predicate SeenAll(s: seq<Byte>, end: nat, capacity: nat, l: Layout, hidden: seq<Byte> -> bool,
                          seen: seq<Record>)
    requires LayoutOk(l) && end <= |s| && ChainOk(s, 0, end, l)
  {
    var all := Records(s, 0, end, l);
    if DropsLast(s, end, capacity, l, hidden) then seen == all[..|all| - 1] && Kept(seen, l, hidden) == seen
        else seen == all
  }

  /** The output is as long as what was read, or shorter by at least the 8 bytes of something hidden. */
  predicate Lag(used: nat, offset: nat, filtered: bool) {
    used % 8 == 0 && if filtered then used + 8 <= offset else used == offset
  }

  /** What is known once the loop has ended */
  ghost predicate AllRead(s: seq<Byte>, end: nat, capacity: nat, l: Layout, hidden: seq<Byte> -> bool,
                          seen: seq<Record>, filtered: bool, passed: bool)
    requires LayoutOk(l) && end <= |s| && ChainOk(s, 0, end, l)
  {
    && SeenAll(s, end, capacity, l, hidden, seen)
    && (filtered <==> Kept(Records(s, 0, end, l), l, hidden) != Records(s, 0, end, l))
    && (passed <==> ReadsPast(s, end, capacity, l, hidden))
  }

  method FilterChain(input: array<Byte>, behind: seq<Byte>, inputUsed: nat, output: array<Byte>, l: Layout,
                     hidden: seq<Byte> -> bool)
    returns (used: nat, lastOffset: nat, filtered: bool, passed: bool, ghost seen: seq<Record>)
    requires LayoutOk(l) && output.Length + 8 <= U32 && 0 < inputUsed <= input.Length == output.Length && |behind| >= 7
    requires input != output && ChainOk(Memory(input, behind), 0, inputUsed, l)
    modifies output
    ensures used <= Align8(inputUsed)
    ensures AllRead(Memory(input, behind), inputUsed, input.Length, l, hidden, seen, filtered, passed)
    ensures Holds(output[..], used, lastOffset, l, hidden, seen, filtered)
  {
    used, lastOffset, filtered, passed, seen := 0, 0, false, false, [];
    var offset := 0;
    ghost var s := Memory(input, behind);
    ReadFromStart(s, inputUsed, l);
    Align8Rounds(inputUsed);
    var done := false;
    while !done
      invariant Memory(input, behind) == s && used <= Align8(inputUsed)
      invariant done ==> AllRead(s, inputUsed, input.Length, l, hidden, seen, filtered, passed)
      invariant !done ==> ReadUpTo(s, offset, inputUsed, l, seen) && Lag(used, offset, filtered)
      invariant Holds(output[..], used, lastOffset, l, hidden, seen, filtered)
      decreases !done, inputUsed - offset
    {
      done, offset, used, lastOffset, filtered, passed, seen :=
        FilterStep(input, behind, offset, inputUsed, output, used, lastOffset, l, hidden, seen, filtered);
    }
  }

  /** One round, and whether it was the last. */
  method FilterStep(input: array<Byte>, behind: seq<Byte>, offset: nat, inputUsed: nat, output: array<Byte>, used: nat,
                    lastOffset: nat, l: Layout, hidden: seq<Byte> -> bool, ghost seen: seq<Record>, filtered: bool)
    returns (done: bool, newOffset: nat, newUsed: nat, newLast: nat, newFiltered: bool, passed: bool,
             ghost newSeen: seq<Record>)
    requires LayoutOk(l) && output.Length + 8 <= U32 && inputUsed <= input.Length == output.Length && |behind| >= 7
    requires input != output && Lag(used, offset, filtered)
    requires ReadUpTo(Memory(input, behind), offset, inputUsed, l, seen)
    requires Holds(output[..], used, lastOffset, l, hidden, seen, filtered)
    modifies output
    ensures newUsed <= Align8(inputUsed)
    ensures done ==> AllRead(Memory(input, behind), inputUsed, input.Length, l, hidden, newSeen, newFiltered, passed)
    ensures !done ==> offset < newOffset && Lag(newUsed, newOffset, newFiltered)
                      && ReadUpTo(Memory(input, behind), newOffset, inputUsed, l, newSeen)
    ensures Holds(output[..], newUsed, newLast, l, hidden, newSeen, newFiltered)
  {
    ghost var s, t0 := Memory(input, behind), output[..];
    var ok;
    ok, newUsed, newLast, newFiltered, passed :=
      FilterEntry(input, behind, offset, inputUsed, output, used, lastOffset, l, hidden, filtered);
    ghost var t1 := output[..];
    assert Memory(input, behind) == s;
    if !ok {
      assert t1 == t0;
      LastIsDropped(s, offset, inputUsed, output.Length, l, hidden, seen);
      done, newOffset, newSeen := true, offset, seen;
      return;
    }
    RoundDone(s, offset, inputUsed, t0, t1, used, lastOffset, newUsed, newLast, l, hidden, seen, filtered, newFiltered);
    newSeen := seen + [RecordAt(s, offset, l)];
    var next := Read32(Memory(input, behind), offset);
    done, newOffset := next == 0, offset + next;
    ReadOn(s, offset, newOffset, inputUsed, l, seen, newSeen);
    if done {
      LastIsRead(s, offset, inputUsed, output.Length, l, hidden, seen, filtered, newFiltered, passed);
    }
  }

  /** The last record has been hidden or copied. */
  lemma LastIsRead(s: seq<Byte>, offset: nat, end: nat, capacity: nat, l: Layout, hidden: seq<Byte> -> bool,
                   seen: seq<Record>, filtered0: bool, filtered: bool, passed: bool)
    requires LayoutOk(l) && end <= |s| && ReadUpTo(s, offset, end, l, seen) && Read32(s, offset) == 0
    requires var r := RecordAt(s, offset, l);
             && (filtered0 <==> Kept(seen, l, hidden) != seen) && (filtered <==> filtered0 || hidden(NameOf(r, l)))
             && (filtered || LastEnd(s, offset, end, l) <= capacity)
             && (passed <==> !hidden(NameOf(r, l)) && LastEnd(s, offset, end, l) > capacity)
    ensures AllRead(s, end, capacity, l, hidden, seen + [RecordAt(s, offset, l)], filtered, passed)
  {
    RecordsAtLast(s, offset, end, l);
    LastOfAll(s, end, capacity, l, hidden, seen, RecordAt(s, offset, l), filtered0, filtered, passed);
  }

  lemma LastOfAll(s: seq<Byte>, end: nat, capacity: nat, l: Layout, hidden: seq<Byte> -> bool, seen: seq<Record>,
                  r: Record, filtered0: bool, filtered: bool, passed: bool)
    requires LayoutOk(l) && end <= |s| && ChainOk(s, 0, end, l) && Records(s, 0, end, l) == seen + [r]
             && |r| >= l.name - 4
    requires (filtered0 <==> Kept(seen, l, hidden) != seen) && (filtered <==> filtered0 || hidden(NameOf(r, l)))
    requires filtered || LastEnd(s, 0, end, l) <= capacity
    requires passed <==> !hidden(NameOf(r, l)) && LastEnd(s, 0, end, l) > capacity
    ensures AllRead(s, end, capacity, l, hidden, seen + [r], filtered, passed)
  {
    KeptGrows(seen, r, l, hidden);
    assert (seen + [r])[|seen + [r]| - 1] == r;
  }

  /** The record there is no room for is the last one, and nothing has been hidden. */
  lemma LastIsDropped(s: seq<Byte>, offset: nat, end: nat, capacity: nat, l: Layout, hidden: seq<Byte> -> bool,
                      seen: seq<Record>)
    requires LayoutOk(l) && end <= |s| && ReadUpTo(s, offset, end, l, seen) && Read32(s, offset) == 0
    requires Kept(seen, l, hidden) == seen && !hidden(NameOf(RecordAt(s, offset, l), l))
    requires LastEnd(s, offset, end, l) > capacity
    ensures AllRead(s, end, capacity, l, hidden, seen, false, false)
  {
    var r := RecordAt(s, offset, l);
    KeptGrows(seen, r, l, hidden);
    assert Records(s, offset, end, l) == [r];
    assert (seen + [r])[..|seen|] == seen;
  }

  lemma ReadFromStart(s: seq<Byte>, end: nat, l: Layout)
    requires LayoutOk(l) && 0 < end <= |s| && ChainOk(s, 0, end, l)
    ensures ReadUpTo(s, 0, end, l, [])
  {
    assert [] + Records(s, 0, end, l) == Records(s, 0, end, l);
  }

  /** What one round does: nothing if the name is hidden, else a copy of the record behind the last one. */
  ghost predicate Round(s: seq<Byte>, offset: nat, end: nat, t0: seq<Byte>, t1: seq<Byte>, used0: nat, last0: nat,
                        used: nat, last: nat, l: Layout, hidden: seq<Byte> -> bool, filtered0: bool, filtered: bool)
    requires LayoutOk(l) && offset <= end <= |s| && ChainOk(s, offset, end, l)
  {
    if hidden(NameOf(RecordAt(s, offset, l), l)) then
      t1 == t0 && used == used0 && last == last0 && filtered
    else
      && used == used0 + Align8(EntryRecordSize(s, offset, end - offset, l)) && last == used0 && filtered == filtered0
      && CopiedBehind(t0, t1, used0, last0, Align8(EntryRecordSize(s, offset, end - offset, l)), s, offset)
  }

  lemma RoundDone(s: seq<Byte>, offset: nat, end: nat, t0: seq<Byte>, t1: seq<Byte>, used0: nat, last0: nat,
                  used: nat, last: nat, l: Layout, hidden: seq<Byte> -> bool, seen: seq<Record>, filtered0: bool,
                      filtered: bool)
    requires LayoutOk(l) && end + 8 <= U32 && offset <= end <= |s| && ChainOk(s, offset, end, l)
    requires Round(s, offset, end, t0, t1, used0, last0, used, last, l, hidden, filtered0, filtered)
    requires Holds(t0, used0, last0, l, hidden, seen, filtered0)
    ensures Holds(t1, used, last, l, hidden, seen + [RecordAt(s, offset, l)], filtered)
  {
    var r := RecordAt(s, offset, l);
    if hidden(NameOf(r, l)) {
      HoldsHidden(t0, used0, last0, l, hidden, seen, filtered0, r);
    } else {
      RecordAppended(s, offset, end, t0, t1, used0, last0, l, Kept(seen, l, hidden));
      HoldsAppended(t1, used, last, l, hidden, seen, filtered, r);
    }
  }

  lemma HoldsHidden(t: seq<Byte>, used: nat, last: nat, l: Layout, hidden: seq<Byte> -> bool, seen: seq<Record>,
                    filtered: bool, r: Record)
    requires LayoutOk(l) && |r| >= l.name - 4 && hidden(NameOf(r, l)) && Holds(t, used, last, l, hidden, seen, filtered)
    ensures Holds(t, used, last, l, hidden, seen + [r], true)
  {
    KeptGrows(seen, r, l, hidden);
  }

  lemma HoldsAppended(t: seq<Byte>, used: nat, last: nat, l: Layout, hidden: seq<Byte> -> bool, seen: seq<Record>,
                      filtered: bool, r: Record)
    requires LayoutOk(l) && |r| >= l.name - 4 && !hidden(NameOf(r, l)) && used <= |t|
    requires Output(t, used, last, l, Kept(seen, l, hidden) + [r]) && (filtered <==> Kept(seen, l, hidden) != seen)
    ensures Holds(t, used, last, l, hidden, seen + [r], filtered)
  {
    KeptGrows(seen, r, l, hidden);
  }

  /** What one round leads to: there is room for the record unless it is the last one and nothing was hidden. */
  ghost predicate RoundEnds(ok: bool, s: seq<Byte>, offset: nat, end: nat, t0: seq<Byte>, t1: seq<Byte>, used0: nat,
                            last0: nat, used: nat, last: nat, l: Layout, hidden: seq<Byte> -> bool, filtered0: bool,
                            filtered: bool, passed: bool)
    requires LayoutOk(l) && offset <= end <= |s| && ChainOk(s, offset, end, l)
  {
    var next := Read32(s, offset);
    if ok then
      && Round(s, offset, end, t0, t1, used0, last0, used, last, l, hidden, filtered0, filtered)
      && (next != 0 ==> Lag(used, offset + next, filtered))
      && (next == 0 ==> filtered || LastEnd(s, offset, end, l) <= |t0|)
      && (next == 0 ==> (passed <==> !hidden(NameOf(RecordAt(s, offset, l), l)) && LastEnd(s, offset, end, l) > |t0|))
      && (filtered <==> filtered0 || hidden(NameOf(RecordAt(s, offset, l), l)))
    else
      && !passed && t1 == t0 && used == used0 && last == last0 && !filtered0 && !filtered
      && next == 0 && !hidden(NameOf(RecordAt(s, offset, l), l)) && LastEnd(s, offset, end, l) > |t0|
  }

  /** What AppendDirectoryEntry says is what the round needs. */
  lemma AppendEnds(ok: bool, s: seq<Byte>, offset: nat, end: nat, t0: seq<Byte>, t1: seq<Byte>, used0: nat, last0: nat,
                   used: nat, last: nat, l: Layout, hidden: seq<Byte> -> bool, filtered: bool, size: nat, passed: bool)
    requires LayoutOk(l) && |t0| + 8 <= U32 && end <= |t0| && offset <= end <= |s| && ChainOk(s, offset, end, l)
    requires !hidden(NameOf(RecordAt(s, offset, l), l)) && Lag(used0, offset, filtered)
    requires size == Align8(EntryRecordSize(s, offset, end - offset, l)) && (ok <==> used0 + size <= |t0|)
    requires !ok ==> used == used0 && last == last0 && t1 == t0
    requires passed <==> ok && offset + size > |t0|
    requires ok ==> used == used0 + size && last == used0 && CopiedBehind(t0, t1, used0, last0, size, s, offset)
    ensures RoundEnds(ok, s, offset, end, t0, t1, used0, last0, used, last, l, hidden, filtered, filtered,
                      passed)
  {
    SizesFit(s, offset, end, used0, filtered, |t0|, l);
  }

  lemma HiddenEnds(s: seq<Byte>, offset: nat, end: nat, t: seq<Byte>, used: nat, last: nat, l: Layout,
                   hidden: seq<Byte> -> bool, filtered: bool)
    requires LayoutOk(l) && |t| + 8 <= U32 && end <= |t| && offset <= end <= |s| && ChainOk(s, offset, end, l)
    requires hidden(NameOf(RecordAt(s, offset, l), l)) && Lag(used, offset, filtered)
    ensures RoundEnds(true, s, offset, end, t, t, used, last, used, last, l, hidden, filtered, true, false)
  {
    SizesFit(s, offset, end, used, filtered, |t|, l);
  }

  /** The bounds one call of AppendDirectoryEntry needs. */
  lemma EntryFits(s: seq<Byte>, offset: nat, end: nat, used: nat, filtered: bool, capacity: nat, l: Layout)
    requires LayoutOk(l) && capacity + 8 <= U32 && end <= capacity && Lag(used, offset, filtered)
    requires end + 7 <= |s| && ChainOk(s, offset, end, l)
    ensures var size := Align8(EntryRecordSize(s, offset, end - offset, l));
            4 <= size && used + size < U32 && offset + size <= |s| && used + size <= Align8(end) && used <= Align8(end)
  {
    SizesFit(s, offset, end, used, filtered, capacity, l);
  }

  /** One round of the loop: the record at `offset` is appended, or noted as hidden. */
  method FilterEntry(input: array<Byte>, behind: seq<Byte>, offset: nat, inputUsed: nat, output: array<Byte>, used: nat,
                     lastOffset: nat, l: Layout, hidden: seq<Byte> -> bool, filtered: bool)
    returns (ok: bool, newUsed: nat, newLast: nat, newFiltered: bool, passed: bool)
    requires LayoutOk(l) && output.Length + 8 <= U32 && offset <= inputUsed <= input.Length == output.Length
    requires |behind| >= 7 && ChainOk(Memory(input, behind), offset, inputUsed, l)
    requires input != output && Lag(used, offset, filtered) && (used != 0 ==> lastOffset + 4 <= used)
    modifies output
    ensures newUsed <= Align8(inputUsed)
    ensures RoundEnds(ok, Memory(input, behind), offset, inputUsed, old(output[..]), output[..], used, lastOffset,
                      newUsed, newLast, l, hidden, filtered, newFiltered, passed)
  {
    ghost var t0 := output[..];
    var memory := Memory(input, behind);
    EntryFits(memory, offset, inputUsed, used, filtered, output.Length, l);
    newUsed, newLast, newFiltered, passed := used, lastOffset, filtered, false;
    var entrySize := EntryRecordSize(memory, offset, inputUsed - offset, l);
    var name := NameOf(RecordAt(memory, offset, l), l);
    if hidden(name) {
      ok, newFiltered := true, true;
      HiddenEnds(memory, offset, inputUsed, t0, used, lastOffset, l, hidden, filtered);
    } else {
      ok, newUsed, newLast, passed := AppendDirectoryEntry(output, used, lastOffset, input, behind, offset, entrySize);
      assert Memory(input, behind) == memory;
      AppendEnds(ok, memory, offset, inputUsed, t0, output[..], used, lastOffset, newUsed, newLast, l, hidden, filtered,
                 Align8(entrySize), passed);
    }
  }

  /** The bounds one round needs. */
  lemma SizesFit(s: seq<Byte>, offset: nat, end: nat, used: nat, filtered: bool, capacity: nat, l: Layout)
    requires LayoutOk(l) && capacity + 8 <= U32 && end <= capacity && Lag(used, offset, filtered)
    requires end <= |s| && ChainOk(s, offset, end, l)
    ensures var size := Align8(EntryRecordSize(s, offset, end - offset, l));
            && 8 <= size && size % 8 == 0 && offset + size <= Align8(end) && offset <= Align8(end) < end + 8
            && (Read32(s, offset) != 0 ==> size == Read32(s, offset) && used + size <= capacity)
            && (filtered ==> used + size <= capacity)
            && (Read32(s, offset) == 0 ==> LastEnd(s, offset, end, l) == offset + size)
            && (Read32(s, offset) != 0 ==> Lag(used + size, offset + Read32(s, offset), filtered))
            && (Read32(s, offset) != 0 ==> Lag(used, offset + Read32(s, offset), true))
  {
    EntryRecordSizeFits(s, offset, end, l);
    Align8Rounds(end);
    RoundedWithin(offset, end);
    MultiplesOf8(used, Align8(EntryRecordSize(s, offset, end - offset, l)));
    NotEmpty(s, offset, end, l);
  }

  lemma NotEmpty(s: seq<Byte>, offset: nat, end: nat, l: Layout)
    requires LayoutOk(l) && end + 8 <= U32 && end <= |s| && ChainOk(s, offset, end, l)
    ensures Align8(EntryRecordSize(s, offset, end - offset, l)) >= 8
  {
    EntryRecordSizeFits(s, offset, end, l);
  }

  lemma RoundedWithin(offset: nat, end: nat)
    requires offset <= end && end + 8 <= U32
    ensures offset <= Align8(end)
  {
    Align8Rounds(end);
  }

  // ----- a buffer whose last record is dropped

  /** A record of the names-only information class, in a buffer padded to a multiple of 8 bytes */
  function NamesRecord(name: seq<Byte>): seq<Byte>
    requires |name| < 0x1_0000
  {
    Bytes32(0) + Bytes32(0) + Bytes32(|name|) + name + seq(8, _ => 0)
  }

  lemma NamesRecordReads(name: seq<Byte>)
    requires |name| < 0x1_0000
    ensures var l, s, end := Layout(8, 12), NamesRecord(name), 12 + |name|;
            && Align8(end) <= |s| && ChainOk(s, 0, end, l) && Read32(s, 0) == 0
            && NameLength(s, 0, l) == |name| && NameOf(RecordAt(s, 0, l), l) == name
  {
    var s := NamesRecord(name);
    ValueOfBytes32(0);
    ValueOfBytes32(|name|);
    assert s[8..12] == Bytes32(|name|) && s[0..4] == Bytes32(0);
    assert s[4..12 + |name|][8..] == s[12..12 + |name|] == name;
    Align8Rounds(12 + |name|);
  }

  /** A query that has exactly the room its one entry needs gets nothing at all, unless that is a multiple of 8. */
  lemma SnugBufferStaysEmpty(name: seq<Byte>, hidden: seq<Byte> -> bool)
    requires |name| < 0x1_0000 && !hidden(name) && (12 + |name|) % 8 != 0
    ensures var l, s, end := Layout(8, 12), NamesRecord(name), 12 + |name|;
            && Align8(end) <= |s| && ChainOk(s, 0, end, l) && NameOf(RecordAt(s, 0, l), l) == name
            && Records(s, 0, end, l) == [RecordAt(s, 0, l)]
            && Passing(s, end, end, l, hidden) == []
            && Passing(s, end, Align8(end), l, hidden) == [RecordAt(s, 0, l)]
  {
    var l, s, end := Layout(8, 12), NamesRecord(name), 12 + |name|;
    NamesRecordReads(name);
    OneRecordPassing(s, end, end, l, hidden);
    OneRecordPassing(s, end, Align8(end), l, hidden);
  }

  lemma OneRecordPassing(s: seq<Byte>, end: nat, capacity: nat, l: Layout, hidden: seq<Byte> -> bool)
    requires LayoutOk(l) && end + 8 <= U32 && end <= |s| && ChainOk(s, 0, end, l) && Read32(s, 0) == 0
    requires end == l.name + NameLength(s, 0, l) && !hidden(NameOf(RecordAt(s, 0, l), l)) && end <= capacity
    ensures Records(s, 0, end, l) == [RecordAt(s, 0, l)]
    ensures Passing(s, end, capacity, l, hidden) == if Align8(end) > capacity then [] else [RecordAt(s, 0, l)]
    ensures end % 8 != 0 ==> Align8(end) > end
  {
    OneRecord(s, end, l);
    KeptAlone(RecordAt(s, 0, l), l, hidden);
  }

  lemma OneRecord(s: seq<Byte>, end: nat, l: Layout)
    requires LayoutOk(l) && end + 8 <= U32 && end <= |s| && ChainOk(s, 0, end, l) && Read32(s, 0) == 0
    requires end == l.name + NameLength(s, 0, l)
    ensures Records(s, 0, end, l) == [RecordAt(s, 0, l)] && LastEnd(s, 0, end, l) == Align8(end)
    ensures end % 8 != 0 ==> Align8(end) > end
  {
    RoundedSize(l.name, NameLength(s, 0, l), end);
    assert LastEnd(s, 0, end, l) == Align8(RecordSize(0, Add32(l.name, NameLength(s, 0, l)), end));
  }

  lemma KeptAlone(r: Record, l: Layout, hidden: seq<Byte> -> bool)
    requires LayoutOk(l) && |r| >= l.name - 4 && !hidden(NameOf(r, l))
    ensures Kept([r], l, hidden) == [r] && [r][..|[r]| - 1] == []
  {
    var none: seq<Record> := [];
    KeptGrows(none, r, l, hidden);
    assert none + [r] == [r];
  }

  lemma RoundedSize(a: nat, b: nat, end: nat)
    requires a + b == end && end + 8 <= U32
    ensures Align8(RecordSize(0, Add32(a, b), end)) == Align8(end)
    ensures end % 8 != 0 ==> Align8(end) > end
  {
    assert Add32(a, b) == end;
    Align8Rounds(end);
  }

  // ----- a buffer that copying reads past

  /** A record of the names-only class at the head of a buffer, with its link and padding, and another one behind it */
  function TwoNames(a: seq<Byte>, size: nat, b: seq<Byte>): seq<Byte>
    requires 12 + |a| <= size < 0x1_0000 && |b| < 0x1_0000
  {
    Bytes32(size) + Bytes32(0) + Bytes32(|a|) + a + seq(size - 12 - |a|, _ => 0) +
    (Bytes32(0) + Bytes32(0) + Bytes32(|b|) + b)
  }

  lemma FirstNameReads(a: seq<Byte>, size: nat, b: seq<Byte>)
    requires 12 + |a| <= size < 0x1_0000 && |b| < 0x1_0000
    ensures var l, s := Layout(8, 12), TwoNames(a, size, b);
            && |s| == size + 12 + |b| && Read32(s, 0) == size
            && NameLength(s, 0, l) == |a| && NameOf(RecordAt(s, 0, l), l) == a
  {
    var s := TwoNames(a, size, b);
    ValueOfBytes32(size);
    ValueOfBytes32(|a|);
    assert s[0..4] == Bytes32(size) && s[8..12] == Bytes32(|a|);
    assert s[4..12 + |a|][8..] == s[12..12 + |a|] == a;
  }

  lemma SecondNameReads(a: seq<Byte>, size: nat, b: seq<Byte>)
    requires 12 + |a| <= size < 0x1_0000 && |b| < 0x1_0000 && size % 8 == 0
    ensures var l, s, end := Layout(8, 12), TwoNames(a, size, b), size + 12 + |b|;
            && |s| == end && ChainOk(s, size, end, l) && Read32(s, size) == 0
            && NameLength(s, size, l) == |b| && NameOf(RecordAt(s, size, l), l) == b
  {
    var s := TwoNames(a, size, b);
    ValueOfBytes32(0);
    ValueOfBytes32(|b|);
    assert s[size..size + 4] == Bytes32(0) && s[size + 8..size + 12] == Bytes32(|b|);
    assert s[size + 4..size + 12 + |b|][8..] == s[size + 12..size + 12 + |b|] == b;
  }

  /** A hidden entry before a shown one makes room in the output. If the shown one ends with the buffer, and that is
      not at a multiple of 8, copying it reads past the buffer; what is read there does not show. */
  lemma HiddenEntryReadsPast(a: seq<Byte>, size: nat, b: seq<Byte>, hidden: seq<Byte> -> bool)
    requires 12 + |a| <= size < 0x1_0000 && |b| < 0x1_0000 && size % 8 == 0 && (12 + |b|) % 8 != 0
    requires hidden(a) && !hidden(b)
    ensures var l, s := Layout(8, 12), TwoNames(a, size, b);
            && ChainOk(s, 0, |s|, l) && ReadsPast(s, |s|, |s|, l, hidden) && ChainOk(s, size, |s|, l)
            && NameOf(RecordAt(s, size, l), l) == b && Passing(s, |s|, |s|, l, hidden) == [RecordAt(s, size, l)]
  {
    var l, s, end := Layout(8, 12), TwoNames(a, size, b), size + 12 + |b|;
    FirstNameReads(a, size, b);
    SecondNameReads(a, size, b);
    var first, second := RecordAt(s, 0, l), RecordAt(s, size, l);
    RecordsAtLast(s, size, end, l);
    RecordsBefore(s, 0, size, end, l);
    assert Records(s, 0, end, l) == [first, second];
    KeptOfTwo(first, second, l, hidden);
    EndOfLast(size, |b|);
    assert LastEnd(s, 0, end, l) == LastEnd(s, size, end, l);
  }

  lemma KeptOfTwo(first: Record, second: Record, l: Layout, hidden: seq<Byte> -> bool)
    requires LayoutOk(l) && |first| >= l.name - 4 && |second| >= l.name - 4
    requires hidden(NameOf(first, l)) && !hidden(NameOf(second, l))
    ensures Kept([first, second], l, hidden) == [second]
  {
    KeptAlone(second, l, hidden);
    assert [first, second][1..] == [second];
  }

  lemma EndOfLast(size: nat, b: nat)
    requires size % 8 == 0 && size < 0x1_0000 && b < 0x1_0000 && (12 + b) % 8 != 0
    ensures size + Align8(RecordSize(0, Add32(12, b), 12 + b)) > size + 12 + b
  {
    RoundedSize(12, b, 12 + b);
  }
}

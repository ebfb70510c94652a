/** The reference: what each operation means on one ordinary directory tree. */
module PlainTree {
  import opened Replies
  import opened Trees

  /** How a file is opened for writing */
  datatype Opening = Overwriting | Appending | Truncating

  datatype Op =
    | Create(path: Path, perm: nat)
    | Mkdir(path: Path, perm: nat)
    | Symlink(path: Path, target: string)
    | Write(path: Path, how: Opening, offset: nat, bytes: seq<Byte>)
    | SetAttr(path: Path, size: Option<nat>, newMode: Option<nat>)
    | Unlink(path: Path)
    | Rmdir(path: Path)
    | Rename(path: Path, to: Path)

  /** What the kernel has checked before it hands the operation to the filesystem. */
  ghost predicate Allowed(v: Tree, op: Op) {
    match op
    case Create(p, _) => p.Child? && IsDir(v, p.parent) && p !in v
    case Mkdir(p, _) => p.Child? && IsDir(v, p.parent) && p !in v
    case Symlink(p, _) => p.Child? && IsDir(v, p.parent) && p !in v
    case Write(p, _, _, _) => p in v && v[p].File?
    case SetAttr(p, size, newMode) => p in v && (size.Some? ==> v[p].File?) && (newMode.Some? ==> !v[p].Link?)
    case Unlink(p) => p in v && !v[p].Dir?
    case Rmdir(p) => p.Child? && IsDir(v, p)
    case Rename(p, to) => p != to && p in v && !v[p].Dir? &&
                          to.Child? && IsDir(v, to.parent) && (to in v ==> !v[to].Dir?)
  }

  function Permissions(perm: nat): Mode {
    perm % 0x1000
  }

  /** Zeros, for the gap a write or a truncation past the end leaves. */
  function Zeros(n: nat): seq<Byte> {
    seq(n, _ => 0)
  }

  /** set_len */
  function Resize(data: seq<Byte>, size: nat): seq<Byte> {
    if size <= |data| then data[..size] else data + Zeros(size - |data|)
  }

  /** write_all after a seek to `offset` */
  function Splice(data: seq<Byte>, offset: nat, bytes: seq<Byte>): seq<Byte> {
    if bytes == [] then data
    else
      var padded := if offset <= |data| then data else Resize(data, offset);
      padded[..offset] + bytes + (if offset + |bytes| <= |data| then data[offset + |bytes|..] else [])
  }

  /** A file's content after it was opened and written to once; when appending, the offset is not looked at. */
  function Written(data: seq<Byte>, how: Opening, offset: nat, bytes: seq<Byte>): seq<Byte> {
    match how
    case Overwriting => Splice(data, offset, bytes)
    case Appending => Splice(data, |data|, bytes)
    case Truncating => Splice([], offset, bytes)
  }

  /** A node after its length or mode is set. */
  function Touch(n: Node, size: Option<nat>, newMode: Option<nat>): Node {
    match n
    case Dir(m) => Dir(if newMode.Some? then Permissions(newMode.value) else m)
    case File(data, m) => File(if size.Some? then Resize(data, size.value) else data,
                               if newMode.Some? then Permissions(newMode.value) else m)
    case Link(t) => Link(t)
  }

  function Step(v: Tree, op: Op): Reply<Tree>
    requires Allowed(v, op)
  {
    match op
    case Create(p, perm) => Ok(v[p := File([], Permissions(perm))])
    case Mkdir(p, perm) => Ok(v[p := Dir(Permissions(perm))])
    case Symlink(p, target) => Ok(v[p := Link(target)])
    case Write(p, how, offset, bytes) => Ok(v[p := File(Written(v[p].data, how, offset, bytes), v[p].mode)])
    case SetAttr(p, size, newMode) => Ok(v[p := Touch(v[p], size, newMode)])
    case Unlink(p) => Ok(v - {p})
    case Rmdir(p) => if ChildNames(v, p) == {} then Ok(v - {p}) else Err(NotEmpty)
    case Rename(p, to) => Ok((v - {p})[to := v[p]])
  }

  // ----- what an operation leaves, spelled out

  /** `now` is `was` with `bytes` put at `at`, byte by byte; a gap before them is filled with zeros. */
  ghost predicate Overwritten(was: seq<Byte>, at: nat, bytes: seq<Byte>, now: seq<Byte>) {
    if bytes == [] then now == was
    else
      && |now| == (if |was| < at + |bytes| then at + |bytes| else |was|)
      && forall i :: 0 <= i < |now| ==>
           now[i] == if at <= i < at + |bytes| then bytes[i - at] else if i < |was| then was[i] else 0
  }

  /** `now` is `was` cut, or lengthened by zeros, to `size` bytes. */
  ghost predicate Resized(was: seq<Byte>, size: nat, now: seq<Byte>) {
    |now| == size && forall i :: 0 <= i < size ==> now[i] == if i < |was| then was[i] else 0
  }

  /** `m` is the lowest twelve bits of `perm`. */
  ghost predicate LowTwelveBits(perm: nat, m: int) {
    0 <= m < 4096 && m <= perm && (perm - m) % 4096 == 0
  }

  /** The mode after a request for `newMode`, if there was one */
  ghost predicate ModeSet(m: Mode, newMode: Option<nat>, now: Mode) {
    match newMode
    case Some(perm) => LowTwelveBits(perm, now)
    case None => now == m
  }

  /** The content of a file after one write to it */
  ghost predicate ContentWritten(was: seq<Byte>, how: Opening, offset: nat, bytes: seq<Byte>, now: seq<Byte>) {
    match how
    case Overwriting => Overwritten(was, offset, bytes, now)
    case Appending => Overwritten(was, |was|, bytes, now)
    case Truncating => Overwritten([], offset, bytes, now)
  }

  /** A node after its length or mode was set; a directory may also have got the default mode. */
  ghost predicate Touched(n: Node, size: Option<nat>, newMode: Option<nat>, now: Node) {
    match n
    case File(data, m) =>
      now.File? && ModeSet(m, newMode, now.mode)
      && (if size.Some? then Resized(data, size.value, now.data) else now.data == data)
    case Dir(m) => now.Dir? && (newMode.Some? ==> LowTwelveBits(newMode.value, now.mode))
    case Link(_) => now == n
  }

  /** What is at the operation's own paths afterwards */
  ghost predicate LeavesThere(v: Tree, op: Op, w: Tree)
    requires Allowed(v, op)
  {
    match op
    case Create(p, perm) => p in w && w[p].File? && w[p].data == [] && LowTwelveBits(perm, w[p].mode)
    case Mkdir(p, perm) => IsDir(w, p) && LowTwelveBits(perm, w[p].mode)
    case Symlink(p, target) => Get(w, p) == Some(Link(target))
    case Write(p, how, offset, bytes) =>
      p in w && w[p].File? && w[p].mode == v[p].mode && ContentWritten(v[p].data, how, offset, bytes, w[p].data)
    case SetAttr(p, size, newMode) => p in w && Touched(v[p], size, newMode, w[p])
    case Unlink(p) => p !in w
    case Rmdir(p) => p !in w
    case Rename(p, to) => p !in w && Get(w, to) == Some(v[p])
  }

  /** An operation on the tree `v` leaves `w`: what it puts at its own paths, and everywhere else what was there, but
      for modes of directories. */
  ghost predicate Leaves(v: Tree, op: Op, w: Tree)
    requires Allowed(v, op)
  {
    LeavesThere(v, op, w) &&
    forall q :: q != op.path && (op.Rename? ==> q != op.to) ==>
      Get(w, q) == Get(v, q) || (IsDir(v, q) && IsDir(w, q))
  }

  lemma SpliceMeans(data: seq<Byte>, offset: nat, bytes: seq<Byte>)
    ensures Overwritten(data, offset, bytes, Splice(data, offset, bytes))
  {
  }

  lemma StepLeaves(v: Tree, op: Op)
    requires Allowed(v, op) && Step(v, op).Ok?
    ensures Leaves(v, op, Step(v, op).value)
  {
    if op.Write? {
      SpliceMeans(if op.how.Truncating? then [] else v[op.path].data,
                  if op.how.Appending? then |v[op.path].data| else op.offset, op.bytes);
    }
  }

  /** The same paths holding the same nodes, the modes of directories aside. */
  ghost predicate SameButDirModes(a: Tree, b: Tree) {
    a.Keys == b.Keys &&
    forall p :: p in a ==> a[p] == b[p] || (a[p].Dir? && b[p].Dir?)
  }

  /** It makes no difference to what is left which modes the directories had. */
  lemma LeavesDespiteModes(v: Tree, v1: Tree, op: Op, w: Tree)
    requires Allowed(v, op) && Allowed(v1, op) && SameButDirModes(v, v1) && Leaves(v1, op, w)
    ensures Leaves(v, op, w)
  {
    if op.Write? || op.SetAttr? || op.Rename? {
      assert v[op.path] == v1[op.path] || (v[op.path].Dir? && v1[op.path].Dir?);
    }
    forall q | q != op.path && (op.Rename? ==> q != op.to)
      ensures Get(w, q) == Get(v, q) || (IsDir(v, q) && IsDir(w, q))
    {
      assert q in v ==> q in v1;
    }
  }
}
